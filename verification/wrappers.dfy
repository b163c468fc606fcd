/** Option and Result, and the ways the scripts and the page fail. */
module Wrappers {

  datatype Option<+T> = None | Some(value: T) {
    function GetOr(default: T): T {
      match this
      case Some(v) => v
      case None => default
    }
  }

  /** How a run stops. The scripts never catch anything: each of these ends the run. */
  datatype Fault =
    | IndexOutOfRange       // `text[0]` on an empty string
    | BadValue(what: string) // `int(...)` of non-numeric text, a tuple of the wrong arity, `float(None)`
    | MissingKey(key: string) // a dict lookup of an absent key (`abstract[name]`, `gfxDef[path]`)
    | AssertionFailed        // a failed `assert`
    | NoneAttribute          // a method called on `None` (`None.replace`)
    | TileSizeMismatch       // an icon whose size differs from the atlas tile
    | InvalidHex             // the page's "Invalid color hex string"
    | UnknownGene(name: string) // `genes.find` found nothing and a field of `undefined` was read

  datatype Result<+T> = Ok(value: T) | Err(fault: Fault) {
    predicate IsFailure() {
      Err?
    }

    function PropagateFailure<U>(): Result<U>
      requires Err?
    {
      Err(fault)
    }

    function Extract(): T
      requires Ok?
    {
      value
    }
  }

  /** `[f(x) for x in xs]` where `f` may fail: the first failure, in order, ends it. */
  function TryMap<A, B>(xs: seq<A>, f: A -> Result<B>): (r: Result<seq<B>>)
    ensures r.Err? <==> exists i :: 0 <= i < |xs| && f(xs[i]).Err?
    ensures r.Ok? ==> |r.value| == |xs| && forall i :: 0 <= i < |xs| ==> f(xs[i]) == Ok(r.value[i])
    decreases |xs|
  {
    if |xs| == 0 then Ok([])
    else
      var init := xs[..|xs| - 1];
      assert forall i :: 0 <= i < |init| ==> init[i] == xs[i];
      var done :- TryMap(init, f);
      var y :- f(xs[|xs| - 1]);
      Ok(done + [y])
  }

  /** A failure of one element is a failure of the whole. */
  lemma TryMapFails<A, B>(xs: seq<A>, f: A -> Result<B>, k: nat)
    requires k < |xs| && f(xs[k]).Err?
    ensures TryMap(xs, f).Err?
  {
  }

  /** A failure in a prefix is a failure of the whole. */
  lemma TryMapPrefix<A, B>(xs: seq<A>, f: A -> Result<B>, k: nat)
    requires k <= |xs| && TryMap(xs[..k], f).Err?
    ensures TryMap(xs, f).Err?
  {
    var i :| 0 <= i < k && f(xs[..k][i]).Err?;
    assert xs[..k][i] == xs[i];
  }

  /** Mapping one more element appends its image. */
  lemma TryMapSnoc<A, B>(xs: seq<A>, x: A, f: A -> Result<B>)
    requires TryMap(xs, f).Ok?
    ensures TryMap(xs + [x], f) == if f(x).Err? then Err(f(x).fault) else Ok(TryMap(xs, f).value + [f(x).value])
  {
    assert (xs + [x])[..|xs|] == xs;
  }

  /** Once a prefix fails, mapping the whole fails the same way: the rest is never reached. */
  lemma {:induction false} TryMapStops<A, B>(xs: seq<A>, f: A -> Result<B>, k: nat)
    requires k <= |xs| && TryMap(xs[..k], f).Err?
    ensures TryMap(xs, f) == TryMap(xs[..k], f)
    decreases |xs| - k
  {
    if k == |xs| {
      assert xs[..k] == xs;
    } else {
      var init := xs[..|xs| - 1];
      assert init[..k] == xs[..k];
      TryMapStops(init, f, k);
    }
  }

  /** A prefix one longer is the prefix and the next element. */
  lemma TakeSnoc<A>(xs: seq<A>, j: nat)
    requires j < |xs|
    ensures xs[..j + 1] == xs[..j] + [xs[j]]
  {
  }

  /** Appending one element after a concatenation. */
  lemma SnocAssoc<A>(a: seq<A>, b: seq<A>, x: A)
    ensures (a + b) + [x] == a + (b + [x])
  {
  }
}
