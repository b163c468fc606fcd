/**
 * Field extraction shared by the gene, trait, backstory and body-part scripts: reading a
 * `<li>` list, a comma-separated work-tag list, and the loops that fill a dict from the
 * children of a definition.
 */
module Defs {
  import opened Wrappers
  import opened Text
  import opened Xml
  import opened Records

  /** A node's `.text` as a JSON value: `None` is written as null. */
  function TextValue(t: Option<string>): (v: Value)
    ensures t.None? <==> v == Null
    ensures t.Some? ==> v == Str(t.value)
  {
    match t
    case None => Null
    case Some(s) => Str(s)
  }

  /** `[x.text for x in ns]` */
  function TextValues(ns: seq<Node>): (r: seq<Value>)
    ensures |r| == |ns| && forall i :: 0 <= i < |ns| ==> r[i] == TextValue(ns[i].text)
  {
    seq(|ns|, i requires 0 <= i < |ns| => TextValue(ns[i].text))
  }

  /** `for li in ns: acc.append(li.text)` */
  method AppendTexts(acc: seq<Value>, ns: seq<Node>) returns (r: seq<Value>)
    ensures |r| == |acc| + |ns|
    ensures r == acc + TextValues(ns)
    ensures acc == [] ==> r == TextValues(ns)
  {
    r := acc;
    for i := 0 to |ns|
      invariant r == acc + TextValues(ns[..i])
    {
      assert TextValues(ns[..i + 1]) == TextValues(ns[..i]) + [TextValue(ns[i].text)];
      r := r + [TextValue(ns[i].text)];
    }
    assert ns[..|ns|] == ns;
    assert [] + TextValues(ns) == TextValues(ns);
  }

  /** An optional float: `None` stays `None`, anything else is `float(text)`. */
  function OptionalReal(t: Option<string>): (v: Value)
    ensures v == Null <==> t.None?
  {
    match t
    case None => Null
    case Some(s) => Real(s)
  }

  /** `default if text is None else int(text)` */
  function IntOr(t: Option<string>, default: int): Result<int> {
    match t
    case None => Ok(default)
    case Some(s) => PyInt(s)
  }

  // ---------------------------------------------------------------- filling a dict in a loop

  /** The keys the items give, in order (an item whose entry raises gives none). */
  function EntryKeys(items: seq<Node>, entry: Node -> Result<(string, Value)>): (ks: seq<string>)
    ensures forall i :: 0 <= i < |items| && entry(items[i]).Ok? ==> entry(items[i]).value.0 in ks
    decreases |items|
  {
    if |items| == 0 then []
    else
      var init := items[..|items| - 1];
      assert forall i :: 0 <= i < |init| ==> init[i] == items[i];
      match entry(items[|items| - 1])
      case Err(_) => EntryKeys(init, entry)
      case Ok(kv) => EntryKeys(init, entry) + [kv.0]
  }

  /**
   * `for x in items: d[key(x)] = value(x)`, where `entry` computes the key and the value of
   * one item or the error that computing them raises.
   */
  function Gather(items: seq<Node>, entry: Node -> Result<(string, Value)>): (r: Result<Record>)
    ensures r.Ok? ==> Unique(r.value)
    decreases |items|
  {
    if |items| == 0 then Ok([])
    else
      match Gather(items[..|items| - 1], entry)
      case Err(f) => Err(f)
      case Ok(d) =>
        match entry(items[|items| - 1])
        case Err(f) => Err(f)
        case Ok(kv) => Ok(Put(d, kv.0, kv.1))
  }

  /** The loop raises exactly when some item's entry raises. */
  lemma {:induction false} GatherFails(items: seq<Node>, entry: Node -> Result<(string, Value)>)
    ensures Gather(items, entry).Err? <==> exists i :: 0 <= i < |items| && entry(items[i]).Err?
    decreases |items|
  {
    if |items| > 0 {
      var init := items[..|items| - 1];
      assert forall i :: 0 <= i < |init| ==> init[i] == items[i];
      GatherFails(init, entry);
      var last := entry(items[|items| - 1]);
      if Gather(init, entry).Err? {
        assert Gather(items, entry).Err?;
        var i :| 0 <= i < |init| && entry(init[i]).Err?;
        assert entry(items[i]).Err?;
      } else if last.Err? {
        assert Gather(items, entry).Err?;
        assert entry(items[|items| - 1]).Err?;
      } else {
        assert Gather(items, entry).Ok?;
        forall i | 0 <= i < |items|
          ensures entry(items[i]).Ok?
        {
          if i < |init| {
            assert entry(init[i]).Ok?;
          }
        }
      }
    }
  }

  /** The keys of the dict the loop fills are the keys its items give. */
  lemma {:induction false} GatherKeys(items: seq<Node>, entry: Node -> Result<(string, Value)>)
    requires Gather(items, entry).Ok?
    ensures forall k :: k in Keys(Gather(items, entry).value) <==> k in EntryKeys(items, entry)
    decreases |items|
  {
    if |items| > 0 {
      var init := items[..|items| - 1];
      GatherKeys(init, entry);
    }
  }

  /** The loop itself: stops at the first item that raises. */
  method Collect(items: seq<Node>, entry: Node -> Result<(string, Value)>) returns (r: Result<Record>)
    ensures r == Gather(items, entry)
  {
    var d: Record := [];
    for i := 0 to |items|
      invariant Gather(items[..i], entry) == Ok(d)
    {
      assert items[..i + 1][..i] == items[..i];
      var e := entry(items[i]);
      if e.Err? {
        assert items[..i + 1][..i] == items[..i];
        GatherPrefix(items, i + 1, entry);
        return Err(e.fault);
      }
      d := Put(d, e.value.0, e.value.1);
    }
    assert items[..|items|] == items;
    return Ok(d);
  }

  /** Once an item raises, the rest of the loop never runs. */
  lemma {:induction false} GatherPrefix(items: seq<Node>, k: nat, entry: Node -> Result<(string, Value)>)
    requires k <= |items| && Gather(items[..k], entry).Err?
    ensures Gather(items, entry) == Gather(items[..k], entry)
    decreases |items| - k
  {
    if k == |items| {
      assert items[..k] == items;
    } else {
      var init := items[..|items| - 1];
      assert init[..k] == items[..k];
      GatherPrefix(init, k, entry);
    }
  }

  /**
   * When no item raises, an item whose key no later item repeats keeps its value: a later
   * duplicate replaces an earlier one.
   */
  lemma {:induction false} GatherLast(items: seq<Node>, entry: Node -> Result<(string, Value)>, i: nat)
    requires i < |items| && forall j :: 0 <= j < |items| ==> entry(items[j]).Ok?
    requires forall j :: i < j < |items| ==> entry(items[j]).value.0 != entry(items[i]).value.0
    ensures Gather(items, entry).Ok?
    ensures Get(Gather(items, entry).value, entry(items[i]).value.0) == Some(entry(items[i]).value.1)
    decreases |items|
  {
    GatherFails(items, entry);
    var init := items[..|items| - 1];
    GatherFails(init, entry);
    var d := Gather(init, entry).value;
    var kv := entry(items[|items| - 1]).value;
    var k := entry(items[i]).value.0;
    PutGet(d, kv.0, kv.1, k);
    if i < |items| - 1 {
      assert init[i] == items[i];
      forall j | i < j < |init|
        ensures entry(init[j]).value.0 != k
      {
        assert init[j] == items[j];
      }
      GatherLast(init, entry, i);
    }
  }

  /** One `float(item.text)` entry of a loop over every child of a group, keyed by the child tag. */
  function FloatEntry(item: Node): Result<(string, Value)> {
    match item.text
    case None => Err(BadValue("float"))
    case Some(t) => Ok((item.tag, Real(t)))
  }

  /** One `skillGains` entry: `key` and `value` must both be present; the value is an int. */
  function SkillEntry(li: Node): (r: Result<(string, Value)>)
    ensures FindText(li, "key").None? || FindText(li, "value").None? ==> r == Err(AssertionFailed)
  {
    match (FindText(li, "key"), FindText(li, "value"))
    case (Some(k), Some(v)) =>
      (match PyInt(v)
       case Ok(n) => Ok((k, Int(n)))
       case Err(f) => Err(f))
    case _ => Err(AssertionFailed)
  }

  // ---------------------------------------------------------------- work tags

  function StripAll(xs: seq<string>): (r: seq<string>)
    ensures |r| == |xs| && forall i :: 0 <= i < |xs| ==> r[i] == Strip(xs[i])
  {
    seq(|xs|, i requires 0 <= i < |xs| => Strip(xs[i]))
  }

  function NonEmpty(xs: seq<string>): (r: seq<string>)
    ensures forall x :: x in r <==> x in xs && x != ""
    decreases |xs|
  {
    if |xs| == 0 then [] else (if xs[0] == "" then [] else [xs[0]]) + NonEmpty(xs[1..])
  }

  /** `filter(nonempty, map(strip, s.split(",")))` */
  function CommaItems(s: string): (r: seq<string>)
    ensures forall x :: x in r ==> x != "" && ',' !in x && !IsPySpace(x[0]) && !IsPySpace(x[|x| - 1])
  {
    var parts := Split(s, ',');
    CleanItems(parts);
    NonEmpty(StripAll(parts))
  }

  /** Stripped, non-empty pieces of comma-free parts are comma-free and start and end in no space. */
  lemma CleanItems(parts: seq<string>)
    requires forall i :: 0 <= i < |parts| ==> ',' !in parts[i]
    ensures forall x :: x in NonEmpty(StripAll(parts)) ==>
      x != "" && ',' !in x && !IsPySpace(x[0]) && !IsPySpace(x[|x| - 1])
  {
    var stripped := StripAll(parts);
    forall x | x in NonEmpty(stripped)
      ensures x != "" && ',' !in x && !IsPySpace(x[0]) && !IsPySpace(x[|x| - 1])
    {
      assert x in stripped && x != "";
      var i :| 0 <= i < |parts| && stripped[i] == x;
      StripInside(parts[i]);
    }
  }

  /**
   * The text form of a work-tag list: nothing for a missing element or "None", otherwise the
   * comma-separated items, each stripped, empty ones dropped.
   */
  function CommaTags(t: Option<string>): (r: seq<string>)
    ensures t.None? ==> r == []
    ensures t.Some? && Strip(t.value) == "None" ==> r == []
    ensures t.Some? && Strip(t.value) != "None" ==> r == CommaItems(t.value)
  {
    match t
    case None => []
    case Some(s) => if Strip(s) == "None" then [] else CommaItems(s)
  }

  lemma StripInside(s: string)
    ensures forall c :: c in Strip(s) ==> c in s
  {
    var t := DropLeading(s, IsPySpace);
    assert forall c :: c in t ==> c in s;
  }

  /** The `<li>` texts of a list, each required to be present (`assert li.text is not None`). */
  function LiTexts(lis: seq<Node>): (r: Result<seq<string>>)
    ensures r.Err? <==> exists i :: 0 <= i < |lis| && lis[i].text.None?
    ensures r.Err? ==> r.fault == AssertionFailed
    ensures r.Ok? ==> |r.value| == |lis| && forall i :: 0 <= i < |lis| ==> Some(r.value[i]) == lis[i].text
    decreases |lis|
  {
    if |lis| == 0 then Ok([])
    else
      match lis[0].text
      case None => Err(AssertionFailed)
      case Some(t) =>
        var rest := LiTexts(lis[1..]);
        assert forall i :: 0 <= i < |lis| - 1 ==> lis[1..][i] == lis[i + 1];
        if rest.Err? then rest else Ok([t] + rest.value)
  }

  /**
   * A work-tag field (`disabledWorkTags`, `workDisables`, `requiredWorkTags`): the `<li>`
   * items, then the items of the element's own comma-separated text.
   */
  function WorkTags(def: Node, group: string): Result<seq<string>> {
    var lis := LiTexts(Items(def, group));
    if lis.Err? then Err(lis.fault) else Ok(lis.value + CommaTags(FindText(def, group)))
  }

  /** The two loops that fill a work-tag list. */
  method CollectWorkTags(def: Node, group: string) returns (r: Result<seq<string>>)
    ensures r == WorkTags(def, group)
  {
    var lis := CollectLiTexts(Items(def, group));
    if lis.Err? {
      return Err(lis.fault);
    }
    var text := FindText(def, group);
    var extra: seq<string> := [];
    if text.Some? && Strip(text.value) != "None" {
      extra := CommaItems(text.value);
    }
    return Ok(lis.value + extra);
  }

  /** The first loop: every `<li>` text, in order, each required to be present. */
  method CollectLiTexts(lis: seq<Node>) returns (r: Result<seq<string>>)
    ensures r == LiTexts(lis)
  {
    var tags: seq<string> := [];
    for i := 0 to |lis|
      invariant LiTexts(lis[..i]) == Ok(tags)
    {
      LiTextsSnoc(lis[..i], lis[i]);
      assert lis[..i + 1] == lis[..i] + [lis[i]];
      if lis[i].text.None? {
        return Err(AssertionFailed);
      }
      tags := tags + [lis[i].text.value];
    }
    assert lis[..|lis|] == lis;
    return Ok(tags);
  }

  lemma {:induction false} LiTextsSnoc(lis: seq<Node>, li: Node)
    requires LiTexts(lis).Ok?
    ensures LiTexts(lis + [li]) == if li.text.None? then Err(AssertionFailed) else Ok(LiTexts(lis).value + [li.text.value])
    decreases |lis|
  {
    if |lis| == 0 {
      assert lis + [li] == [li];
      assert [li][1..] == [];
      if li.text.Some? {
        var x := li.text.value;
        assert LiTexts([li]) == Ok([x] + []);
        assert [x] + [] == [x];
        assert LiTexts(lis) == Ok([]);
        assert LiTexts(lis).value + [x] == [x];
        assert LiTexts(lis + [li]) == Ok([x]);
      } else {
        assert [li][0].text.None?;
        assert LiTexts([li]) == Err(AssertionFailed);
      }
    } else {
      var both := lis + [li];
      assert both[0] == lis[0];
      assert both[1..] == lis[1..] + [li];
      var t := lis[0].text.value;
      assert LiTexts(lis[1..]).Ok?;
      assert LiTexts(lis).value == [t] + LiTexts(lis[1..]).value;
      LiTextsSnoc(lis[1..], li);
      if li.text.Some? {
        assert LiTexts(both) == Ok([t] + LiTexts(lis[1..] + [li]).value);
        assert [t] + (LiTexts(lis[1..]).value + [li.text.value]) == ([t] + LiTexts(lis[1..]).value) + [li.text.value];
      }
    }
  }

  /** A tag that survives the comma form unchanged. */
  predicate CleanTag(x: string) {
    x != "" && ',' !in x && !IsPySpace(x[0]) && !IsPySpace(x[|x| - 1])
  }

  /**
   * Writing tags out as "a,b,c" and reading them back gives the same tags, as long as each is
   * non-empty, holds no comma, has no surrounding space, and the list is not just "None".
   */
  lemma CommaTagsJoin(tags: seq<string>)
    requires |tags| >= 1 && tags != ["None"]
    requires forall i :: 0 <= i < |tags| ==> CleanTag(tags[i])
    ensures CommaTags(Some(Join(tags, ','))) == tags
  {
    var s := Join(tags, ',');
    JoinSplit(tags, ',');
    JoinEnds(tags, ',');
    StripTrimmed(s);
    JoinNotNone(tags);
    StripAllClean(tags);
    NonEmptyAll(tags);
    assert Strip(s) != "None";
    var items := CommaItems(s);
    assert items == NonEmpty(StripAll(Split(s, ',')));
    assert items == tags;
    assert CommaTags(Some(s)) == items;
  }

  lemma StripAllClean(tags: seq<string>)
    requires forall i :: 0 <= i < |tags| ==> CleanTag(tags[i])
    ensures StripAll(tags) == tags
  {
    forall i | 0 <= i < |tags| ensures Strip(tags[i]) == tags[i] {
      StripTrimmed(tags[i]);
    }
  }

  lemma JoinNotNone(tags: seq<string>)
    requires |tags| >= 1 && tags != ["None"]
    requires forall i :: 0 <= i < |tags| ==> ',' !in tags[i]
    ensures Join(tags, ',') != "None"
  {
    JoinSplit(tags, ',');
    if Join(tags, ',') == "None" {
      SplitNone();
    }
  }

  lemma SplitNone()
    ensures Split("None", ',') == ["None"]
  {
    JoinSplit(["None"], ',');
  }

  lemma {:induction false} NonEmptyAll(xs: seq<string>)
    requires forall i :: 0 <= i < |xs| ==> xs[i] != ""
    ensures NonEmpty(xs) == xs
    decreases |xs|
  {
    if |xs| > 0 {
      NonEmptyAll(xs[1..]);
      assert xs == [xs[0]] + xs[1..];
    }
  }

  /** A joined list starts with its first piece's first character and ends with its last piece's last. */
  lemma {:induction false} JoinEnds(parts: seq<string>, sep: char)
    requires |parts| >= 1 && forall i :: 0 <= i < |parts| ==> parts[i] != ""
    ensures |Join(parts, sep)| > 0
    ensures Join(parts, sep)[0] == parts[0][0]
    ensures Join(parts, sep)[|Join(parts, sep)| - 1] == parts[|parts| - 1][|parts[|parts| - 1]| - 1]
    decreases |parts|
  {
    if |parts| > 1 {
      var rest := parts[1..];
      JoinEnds(rest, sep);
      assert rest[|rest| - 1] == parts[|parts| - 1];
    }
  }
}
