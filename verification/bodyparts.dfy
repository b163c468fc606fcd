/**
 * `scripts/bodyparts.py`: the head types, hair styles and beards of the definitions files,
 * with their abstract parents resolved, exported as sparse records, and the texture paths
 * the graphics step would look up.
 */
module Bodyparts {
  import opened Wrappers
  import opened Text
  import opened Xml
  import opened Records
  import opened Defs
  import Genes

  // ---------------------------------------------------------------- float lists

  /**
   * `parseFloatList(text)`: a missing text stays missing; otherwise the text must be wrapped
   * in parentheses (an empty text fails on `text[0]`) and every comma-separated piece between
   * them is one number, kept as its literal.
   */
  function ParseFloatList(text: Option<string>): (r: Result<Option<seq<string>>>)
    ensures text.None? <==> r == Ok(None)
    ensures text == Some("") ==> r == Err(IndexOutOfRange)
    ensures text.Some? && text.value != "" ==>
      (r.Ok? <==> text.value[0] == '(' && text.value[|text.value| - 1] == ')')
    ensures text.Some? && text.value != "" && r.Err? ==> r.fault == AssertionFailed
    ensures r.Ok? && r.value.Some? ==> |r.value.value| == Occurrences(text.value, ',') + 1
  {
    match text
    case None => Ok(None)
    case Some(t) =>
      if |t| == 0 then Err(IndexOutOfRange)
      else if t[0] != '(' || t[|t| - 1] != ')' then Err(AssertionFailed)
      else
        var inner := t[1..|t| - 1];
        SplitCount(inner, ',');
        OccurrencesParens(t);
        Ok(Some(Split(inner, ',')))
  }

  /** The parentheses hold no comma: the commas of the text are those between them. */
  lemma OccurrencesParens(t: string)
    requires |t| >= 2 && t[0] == '(' && t[|t| - 1] == ')'
    ensures Occurrences(t, ',') == Occurrences(t[1..|t| - 1], ',')
  {
    var inner := t[1..|t| - 1];
    assert t[1..] == inner + [')'];
    OccurrencesSnoc(inner, ')', ',');
  }

  lemma {:induction false} OccurrencesSnoc(s: string, x: char, c: char)
    ensures Occurrences(s + [x], c) == Occurrences(s, c) + (if x == c then 1 else 0)
    decreases |s|
  {
    if |s| > 0 {
      assert (s + [x])[1..] == s[1..] + [x];
      OccurrencesSnoc(s[1..], x, c);
    }
  }

  /** A list written as the game writes it, "(a,b,...)" with comma-free pieces, is read back piece by piece. */
  lemma ParseFloatListJoin(items: seq<string>)
    requires |items| >= 1 && forall i :: 0 <= i < |items| ==> ',' !in items[i]
    ensures ParseFloatList(Some("(" + Join(items, ',') + ")")) == Ok(Some(items))
  {
    var t := "(" + Join(items, ',') + ")";
    assert t[0] == '(' && t[|t| - 1] == ')';
    assert t[1..|t| - 1] == Join(items, ',');
    JoinSplit(items, ',');
  }

  /** The numbers of a list, exported. */
  function Reals(xs: seq<string>): (vs: seq<Value>)
    ensures |vs| == |xs| && forall i :: 0 <= i < |xs| ==> vs[i] == Real(xs[i])
  {
    seq(|xs|, i requires 0 <= i < |xs| => Real(xs[i]))
  }

  /** A float list field as exported: `None` or the list of numbers. */
  function FloatListValue(l: Option<seq<string>>): Value {
    match l
    case None => Null
    case Some(xs) => List(Reals(xs))
  }

  /** A parsed float list is never empty, so the sweep drops such a field exactly when its text is missing. */
  lemma FloatListVacant(text: Option<string>)
    requires ParseFloatList(text).Ok?
    ensures Vacant(FloatListValue(ParseFloatList(text).value)) <==> text.None?
  {
  }

  // ---------------------------------------------------------------- head types

  /** The fields `headType.__init__` reads. */
  datatype HeadType = HeadType(
    defName: Option<string>, graphicPath: Option<string>, gender: Option<string>,
    randomChosen: Option<string>, hairMeshSize: Option<seq<string>>,
    beardMeshSize: Option<seq<string>>, beardOffset: Option<seq<string>>,
    beardOffsetXEast: Option<string>, eyeOffsetEastWest: Option<seq<string>>,
    narrow: Option<string>)

  /** `headType(bdef)`: the texts as they are, and the four float lists, each of which may fail. */
  function HeadOf(n: Node): (r: Result<HeadType>)
    ensures r.Ok? <==>
      ParseFloatList(FindText(n, "hairMeshSize")).Ok? && ParseFloatList(FindText(n, "beardMeshSize")).Ok? &&
      ParseFloatList(FindText(n, "beardOffset")).Ok? && ParseFloatList(FindText(n, "eyeOffsetEastWest")).Ok?
    ensures r.Ok? ==> r.value.graphicPath == FindText(n, "graphicPath")
  {
    var hairMeshSize :- ParseFloatList(FindText(n, "hairMeshSize"));
    var beardMeshSize :- ParseFloatList(FindText(n, "beardMeshSize"));
    var beardOffset :- ParseFloatList(FindText(n, "beardOffset"));
    var eyeOffsetEastWest :- ParseFloatList(FindText(n, "eyeOffsetEastWest"));
    Ok(HeadType(
      FindText(n, "defName"), FindText(n, "graphicPath"), FindText(n, "gender"),
      FindText(n, "randomChosen"), hairMeshSize, beardMeshSize, beardOffset,
      FindText(n, "beardOffsetXEast"), eyeOffsetEastWest, FindText(n, "narrow")))
  }

  /** `graphicsSearch.add(self.graphicPath + "_south")` when the head has a graphic path. */
  function HeadSearch(h: HeadType): set<string> {
    if h.graphicPath.Some? then {h.graphicPath.value + "_south"} else {}
  }

  /** The keys of the dict `headType.export` builds, in its order. */
  const HeadKeys: seq<string> := [
    "name", "graphicPath", "gender", "randomChosen", "hairMeshSize", "beardMeshSize",
    "beardOffset", "beardOffsetXEast", "eyeOffsetEastWest", "narrow"]

  lemma HeadKeysDistinct()
    ensures Distinct(HeadKeys)
  {
  }

  function HeadValues(h: HeadType): (vs: seq<Value>)
    ensures |vs| == |HeadKeys|
  {
    [TextValue(h.defName), TextValue(h.graphicPath), TextValue(h.gender),
     TextValue(h.randomChosen), FloatListValue(h.hairMeshSize), FloatListValue(h.beardMeshSize),
     FloatListValue(h.beardOffset), OptionalReal(h.beardOffsetXEast),
     FloatListValue(h.eyeOffsetEastWest), TextValue(h.narrow)]
  }

  /** What `headType.export` returns: the dict with every `None`, `[]` and `{}` value popped. */
  function HeadRecord(h: HeadType): Record {
    Sparse(Zip(HeadKeys, HeadValues(h)))
  }

  /** `headType.export`: build the dict, then pop the vacant keys. */
  method ExportHead(h: HeadType) returns (d: Record)
    ensures d == HeadRecord(h)
  {
    HeadKeysDistinct();
    SweptAt(HeadKeys, HeadValues(h), 0);
    d := Sweep(Zip(HeadKeys, HeadValues(h)));
  }

  /** Field `k` of a head, number `i` of the export, is exported exactly when its value `v` is not vacant, and as it is. */
  lemma HeadRecordAt(h: HeadType, i: nat, k: string, v: Value)
    requires i < |HeadKeys| && HeadKeys[i] == k && HeadValues(h)[i] == v
    ensures Unique(HeadRecord(h))
    ensures Get(HeadRecord(h), k) == if Vacant(v) then None else Some(v)
  {
    HeadKeysDistinct();
    SweptAt(HeadKeys, HeadValues(h), i);
  }

  /** The search key of a head is its exported graphic path with "_south" appended; without one there is neither. */
  lemma HeadSearchOfRecord(h: HeadType)
    ensures h.graphicPath.Some? ==>
      Get(HeadRecord(h), "graphicPath") == Some(Str(h.graphicPath.value)) &&
      HeadSearch(h) == {h.graphicPath.value + "_south"}
    ensures h.graphicPath.None? ==> Get(HeadRecord(h), "graphicPath") == None && HeadSearch(h) == {}
  {
    HeadRecordAt(h, 1, "graphicPath", TextValue(h.graphicPath));
  }

  // ---------------------------------------------------------------- hair and beard types

  /** The fields `hairType.__init__` reads; beards are read with the same shape. */
  datatype HairType = HairType(
    defName: Option<string>, labelText: Option<string>, graphicPath: Option<string>,
    gender: Option<string>, category: Option<string>, styleTags: seq<Value>,
    offsetNarrowEast: Option<seq<string>>, offsetNarrowSouth: Option<seq<string>>)

  /**
   * `hairType(bdef)`: the texture path is `texPath`, the style tags are the `<li>` texts
   * (a missing text is kept as `None`), and the two float lists may fail.
   */
  function HairOf(n: Node): (r: Result<HairType>)
    ensures r.Ok? <==>
      ParseFloatList(FindText(n, "offsetNarrowEast")).Ok? && ParseFloatList(FindText(n, "offsetNarrowSouth")).Ok?
    ensures r.Ok? ==> r.value.graphicPath == FindText(n, "texPath")
    ensures r.Ok? ==> r.value.styleTags == TextValues(Items(n, "styleTags"))
  {
    var offsetNarrowEast :- ParseFloatList(FindText(n, "offsetNarrowEast"));
    var offsetNarrowSouth :- ParseFloatList(FindText(n, "offsetNarrowSouth"));
    Ok(HairType(
      FindText(n, "defName"), FindText(n, "label"), FindText(n, "texPath"), FindText(n, "gender"),
      FindText(n, "category"), TextValues(Items(n, "styleTags")), offsetNarrowEast,
      offsetNarrowSouth))
  }

  /** `hairType.__init__`, with its loop over the style tags. */
  method InitHair(n: Node) returns (r: Result<HairType>)
    ensures r == HairOf(n)
  {
    var styleTags := AppendTexts([], Items(n, "styleTags"));
    var offsetNarrowEast :- ParseFloatList(FindText(n, "offsetNarrowEast"));
    var offsetNarrowSouth :- ParseFloatList(FindText(n, "offsetNarrowSouth"));
    return Ok(HairType(
      FindText(n, "defName"), FindText(n, "label"), FindText(n, "texPath"), FindText(n, "gender"),
      FindText(n, "category"), styleTags, offsetNarrowEast, offsetNarrowSouth));
  }

  /** `graphicsSearch.add(self.graphicPath)` when the hair has a texture path. */
  function HairSearch(h: HairType): set<string> {
    if h.graphicPath.Some? then {h.graphicPath.value} else {}
  }

  /** The keys of the dict `hairType.export` builds, in its order. */
  const HairKeys: seq<string> := [
    "name", "label", "graphicPath", "gender", "category", "styleTags", "offsetNarrowEast",
    "offsetNarrowSouth"]

  lemma HairKeysDistinct()
    ensures Distinct(HairKeys)
  {
  }

  function HairValues(h: HairType): (vs: seq<Value>)
    ensures |vs| == |HairKeys|
  {
    [TextValue(h.defName), TextValue(h.labelText), TextValue(h.graphicPath), TextValue(h.gender),
     TextValue(h.category), List(h.styleTags), FloatListValue(h.offsetNarrowEast),
     FloatListValue(h.offsetNarrowSouth)]
  }

  /** What `hairType.export` returns: the dict with every `None`, `[]` and `{}` value popped. */
  function HairRecord(h: HairType): Record {
    Sparse(Zip(HairKeys, HairValues(h)))
  }

  /** `hairType.export`: build the dict, then pop the vacant keys. */
  method ExportHair(h: HairType) returns (d: Record)
    ensures d == HairRecord(h)
  {
    HairKeysDistinct();
    SweptAt(HairKeys, HairValues(h), 0);
    d := Sweep(Zip(HairKeys, HairValues(h)));
  }

  /** Field `k` of a hair or beard, number `i` of the export, is exported exactly when its value `v` is not vacant, and as it is. */
  lemma HairRecordAt(h: HairType, i: nat, k: string, v: Value)
    requires i < |HairKeys| && HairKeys[i] == k && HairValues(h)[i] == v
    ensures Unique(HairRecord(h))
    ensures Get(HairRecord(h), k) == if Vacant(v) then None else Some(v)
  {
    HairKeysDistinct();
    SweptAt(HairKeys, HairValues(h), i);
  }

  /** Every key of an exported hair or beard is one of the hair keys. */
  lemma HairRecordKeys(h: HairType, k: string)
    requires k in Keys(HairRecord(h))
    ensures k in HairKeys
  {
    SweptKeys(HairKeys, HairValues(h), k);
  }

  /** The style tags are kept exactly when there is at least one `<li>`. */
  lemma HairStyleTags(n: Node)
    requires HairOf(n).Ok?
    ensures Get(HairRecord(HairOf(n).value), "styleTags") ==
      if Items(n, "styleTags") == [] then None else Some(List(TextValues(Items(n, "styleTags"))))
  {
    var tags := TextValues(Items(n, "styleTags"));
    assert |tags| == |Items(n, "styleTags")|;
    HairTagsField(HairOf(n).value);
  }

  lemma HairTagsField(h: HairType)
    ensures Get(HairRecord(h), "styleTags") == if h.styleTags == [] then None else Some(List(h.styleTags))
  {
    assert HairKeys[5] == "styleTags";
    HairRecordAt(h, 5, "styleTags", List(h.styleTags));
  }

  /** The search key of a hair or beard is its exported texture path as it is; without one there is neither. */
  lemma HairSearchOfRecord(h: HairType)
    ensures h.graphicPath.Some? ==>
      Get(HairRecord(h), "graphicPath") == Some(Str(h.graphicPath.value)) && HairSearch(h) == {h.graphicPath.value}
    ensures h.graphicPath.None? ==> Get(HairRecord(h), "graphicPath") == None && HairSearch(h) == {}
  {
    HairRecordAt(h, 2, "graphicPath", TextValue(h.graphicPath));
  }

  // ---------------------------------------------------------------- registries

  /** `"Abstract" in bdef.attrib`: any value of the attribute makes a definition abstract. */
  predicate IsAbstract(d: Node) {
    "Abstract" in d.attrs
  }

  /**
   * `abstract[bdef.attrib["Name"]] = bdef` for each abstract definition, in order, a later
   * one replacing an earlier one; one without a `Name` is a fatal lookup.
   */
  function Registered(reg: map<string, Node>, defs: seq<Node>): (r: Result<map<string, Node>>)
    ensures r.Err? <==> exists i :: 0 <= i < |defs| && IsAbstract(defs[i]) && "Name" !in defs[i].attrs
    ensures r.Err? ==> r.fault == MissingKey("Name")
    ensures r.Ok? ==> reg.Keys <= r.value.Keys
    decreases |defs|
  {
    if |defs| == 0 then Ok(reg)
    else
      var init := defs[..|defs| - 1];
      var d := defs[|defs| - 1];
      assert forall i :: 0 <= i < |init| ==> init[i] == defs[i];
      var before :- Registered(reg, init);
      if !IsAbstract(d) then Ok(before)
      else if "Name" !in d.attrs then Err(MissingKey("Name"))
      else Ok(before[d.attrs["Name"] := d])
  }

  /** Registering two runs of definitions is registering the first, then the second. */
  lemma {:induction false} RegisteredAppend(reg: map<string, Node>, a: seq<Node>, b: seq<Node>)
    requires Registered(reg, a).Ok?
    ensures Registered(reg, a + b) == Registered(Registered(reg, a).value, b)
    decreases |b|
  {
    if |b| == 0 {
      assert a + b == a;
    } else {
      var init := b[..|b| - 1];
      RegisteredAppend(reg, a, init);
      assert (a + b)[..|a + b| - 1] == a + init;
    }
  }

  /** An abstract definition is found under its name afterwards, unless a later one took the name. */
  lemma {:induction false} RegisteredFinds(reg: map<string, Node>, defs: seq<Node>, i: nat)
    requires Registered(reg, defs).Ok? && i < |defs| && IsAbstract(defs[i])
    ensures "Name" in defs[i].attrs && defs[i].attrs["Name"] in Registered(reg, defs).value
    decreases |defs|
  {
    var init := defs[..|defs| - 1];
    assert forall j :: 0 <= j < |init| ==> init[j] == defs[j];
    if i < |defs| - 1 {
      RegisteredFinds(reg, init, i);
    }
  }

  /** The first loop over a run of definitions of one kind. */
  method Register(reg: map<string, Node>, defs: seq<Node>) returns (r: Result<map<string, Node>>)
    ensures r == Registered(reg, defs)
  {
    var m := reg;
    for i := 0 to |defs|
      invariant Registered(reg, defs[..i]) == Ok(m)
    {
      assert defs[..i + 1][..i] == defs[..i];
      var d := defs[i];
      if IsAbstract(d) {
        if "Name" !in d.attrs {
          assert Registered(reg, defs).Err? by {
            assert defs[i] == d;
          }
          return Err(MissingKey("Name"));
        }
        m := m[d.attrs["Name"] := d];
      }
    }
    assert defs[..|defs|] == defs;
    return Ok(m);
  }

  /** The three registries, one per kind of definition. */
  datatype Registries = Registries(heads: map<string, Node>, hairs: map<string, Node>, beards: map<string, Node>)

  /**
   * The first pass over all files: each kind is registered in its own registry, over every
   * file, before any concrete definition is read.
   */
  function RegisterAll(regs: Registries, roots: seq<Node>): (r: Result<Registries>)
    ensures r.Err? ==> r.fault == MissingKey("Name")
  {
    var heads :- Registered(regs.heads, AllKids(roots, "HeadTypeDef"));
    var hairs :- Registered(regs.hairs, AllKids(roots, "HairDef"));
    var beards :- Registered(regs.beards, AllKids(roots, "BeardDef"));
    Ok(Registries(heads, hairs, beards))
  }

  /** The three registries succeed together or the whole first pass fails. */
  lemma RegisterAllParts(regs: Registries, roots: seq<Node>)
    ensures RegisterAll(regs, roots).Ok? <==>
      Registered(regs.heads, AllKids(roots, "HeadTypeDef")).Ok? &&
      Registered(regs.hairs, AllKids(roots, "HairDef")).Ok? &&
      Registered(regs.beards, AllKids(roots, "BeardDef")).Ok?
    ensures RegisterAll(regs, roots).Ok? ==>
      RegisterAll(regs, roots).value == Registries(Registered(regs.heads, AllKids(roots, "HeadTypeDef")).value,
        Registered(regs.hairs, AllKids(roots, "HairDef")).value,
        Registered(regs.beards, AllKids(roots, "BeardDef")).value)
  {
  }

  /** A parent registered in any file, even a later one, can be found by every file. */
  lemma ParentInAnyFile(regs: Registries, roots: seq<Node>, k: nat)
    requires RegisterAll(regs, roots).Ok? && k < |AllKids(roots, "HeadTypeDef")|
    requires IsAbstract(AllKids(roots, "HeadTypeDef")[k])
    ensures var d := AllKids(roots, "HeadTypeDef")[k];
      "Name" in d.attrs && d.attrs["Name"] in RegisterAll(regs, roots).value.heads
  {
    RegisteredFinds(regs.heads, AllKids(roots, "HeadTypeDef"), k);
  }

  // ---------------------------------------------------------------- emitting one definition

  /** The definitions the second loop reads: those without an `Abstract` attribute, in order. */
  function Concrete(defs: seq<Node>): (r: seq<Node>)
    ensures |r| <= |defs|
    decreases |defs|
  {
    if |defs| == 0 then []
    else
      var d := defs[|defs| - 1];
      Concrete(defs[..|defs| - 1]) + (if IsAbstract(d) then [] else [d])
  }

  /** Exactly the definitions without an `Abstract` attribute are read. */
  lemma {:induction false} ConcreteMembers(defs: seq<Node>, d: Node)
    ensures d in Concrete(defs) <==> d in defs && !IsAbstract(d)
    decreases |defs|
  {
    if |defs| > 0 {
      var init := defs[..|defs| - 1];
      ConcreteMembers(init, d);
      assert defs == init + [defs[|defs| - 1]];
    }
  }

  /**
   * `for bdef in tree.iterfind(...)`: a definition with an `Abstract` attribute is skipped,
   * the others are read with `f` in order, and the first that fails stops the loop.
   */
  function Emitted<T>(defs: seq<Node>, f: Node -> Result<T>): Result<seq<T>>
    decreases |defs|
  {
    if |defs| == 0 then Ok([])
    else
      var before :- Emitted(defs[..|defs| - 1], f);
      var d := defs[|defs| - 1];
      if IsAbstract(d) then Ok(before)
      else
        var x :- f(d);
        Ok(before + [x])
  }

  /** The loop is the concrete definitions, read one by one: exactly `TryMap` over them. */
  lemma {:induction false} EmittedConcrete<T>(defs: seq<Node>, f: Node -> Result<T>)
    ensures Emitted(defs, f) == TryMap(Concrete(defs), f)
    decreases |defs|
  {
    if |defs| > 0 {
      var init := defs[..|defs| - 1];
      var d := defs[|defs| - 1];
      EmittedConcrete(init, f);
      var xs := Concrete(init);
      if TryMap(xs, f).Err? {
        if !IsAbstract(d) {
          assert (xs + [d])[..|xs|] == xs;
          TryMapStops(xs + [d], f, |xs|);
        } else {
          assert xs + [] == xs;
        }
      } else if !IsAbstract(d) {
        TryMapSnoc(xs, d, f);
      } else {
        assert xs + [] == xs;
      }
    }
  }

  lemma EmittedSnoc<T>(defs: seq<Node>, i: nat, f: Node -> Result<T>)
    requires i < |defs| && Emitted(defs[..i], f).Ok?
    ensures Emitted(defs[..i + 1], f) ==
      if IsAbstract(defs[i]) then Emitted(defs[..i], f)
      else if f(defs[i]).Err? then Err(f(defs[i]).fault)
      else Ok(Emitted(defs[..i], f).value + [f(defs[i]).value])
  {
    assert defs[..i + 1][..i] == defs[..i];
  }

  /** Once a prefix of the definitions fails, the whole run fails the same way. */
  lemma {:induction false} EmittedStops<T>(defs: seq<Node>, k: nat, f: Node -> Result<T>)
    requires k <= |defs| && Emitted(defs[..k], f).Err?
    ensures Emitted(defs, f) == Emitted(defs[..k], f)
    decreases |defs| - k
  {
    if k < |defs| {
      var init := defs[..|defs| - 1];
      assert init[..k] == defs[..k];
      EmittedStops(init, k, f);
    } else {
      assert defs[..k] == defs;
    }
  }

  /** One concrete head: `bdef.extend(abstract_headTypes[ParentName])` if it names a parent, then `headType(bdef)`. */
  function EmitHead(reg: map<string, Node>, d: Node): Result<HeadType> {
    var n :- Genes.Resolve(reg, d);
    HeadOf(n)
  }

  /** One concrete hair or beard, with the registry of its own kind. */
  function EmitHair(reg: map<string, Node>, d: Node): Result<HairType> {
    var n :- Genes.Resolve(reg, d);
    HairOf(n)
  }

  function HeadEmitter(reg: map<string, Node>): Node -> Result<HeadType> {
    d => EmitHead(reg, d)
  }

  function HairEmitter(reg: map<string, Node>): Node -> Result<HairType> {
    d => EmitHair(reg, d)
  }

  /** A parent is looked up in the registry of the definition's own kind: registered elsewhere, it is missing. */
  lemma ParentOwnKind(reg: map<string, Node>, d: Node)
    requires "ParentName" in d.attrs && d.attrs["ParentName"] !in reg
    ensures EmitHead(reg, d) == Err(MissingKey(d.attrs["ParentName"]))
    ensures EmitHair(reg, d) == Err(MissingKey(d.attrs["ParentName"]))
  {
  }

  /** A head's own graphic path wins over its parent's; the parent's is used when it has none. */
  lemma HeadOwnFirst(reg: map<string, Node>, d: Node)
    requires "ParentName" in d.attrs && EmitHead(reg, d).Ok?
    ensures EmitHead(reg, d).value.graphicPath ==
      if FindText(d, "graphicPath").Some? then FindText(d, "graphicPath")
      else FindText(reg[d.attrs["ParentName"]], "graphicPath")
  {
    Genes.ResolveOwnFirst(reg, d, "graphicPath", "styleTags");
  }

  /** A hair's own style tags come first, followed by its parent's. */
  lemma HairOwnFirst(reg: map<string, Node>, d: Node)
    requires "ParentName" in d.attrs && EmitHair(reg, d).Ok?
    ensures EmitHair(reg, d).value.styleTags ==
      TextValues(Items(d, "styleTags")) + TextValues(Items(reg[d.attrs["ParentName"]], "styleTags"))
  {
    var parent := reg[d.attrs["ParentName"]];
    Genes.ResolveOwnFirst(reg, d, "texPath", "styleTags");
    TextValuesAppend(Items(d, "styleTags"), Items(parent, "styleTags"));
  }

  lemma TextValuesAppend(a: seq<Node>, b: seq<Node>)
    ensures TextValues(a + b) == TextValues(a) + TextValues(b)
  {
  }

  // ---------------------------------------------------------------- what the second loop adds

  /** The records of a run of definitions, in order. */
  function Each<T>(xs: seq<T>, f: T -> Record): (r: seq<Record>)
    ensures |r| == |xs|
  {
    seq(|xs|, i requires 0 <= i < |xs| => f(xs[i]))
  }

  lemma EachAt<T>(xs: seq<T>, f: T -> Record, i: nat)
    requires i < |xs|
    ensures Each(xs, f)[i] == f(xs[i])
  {
  }

  /** The search keys of a run of definitions. */
  function Union<T>(xs: seq<T>, f: T -> set<string>): set<string>
    decreases |xs|
  {
    if |xs| == 0 then {} else Union(xs[..|xs| - 1], f) + f(xs[|xs| - 1])
  }

  lemma EachSnoc<T>(xs: seq<T>, x: T, f: T -> Record)
    ensures Each(xs + [x], f) == Each(xs, f) + [f(x)]
  {
  }

  lemma UnionSnoc<T>(xs: seq<T>, x: T, f: T -> set<string>)
    ensures Union(xs + [x], f) == Union(xs, f) + f(x)
  {
    assert (xs + [x])[..|xs|] == xs;
  }

  /** Every search key is one some definition of the run adds. */
  lemma {:induction false} UnionMember<T>(xs: seq<T>, f: T -> set<string>, p: string)
    ensures p in Union(xs, f) <==> exists i :: 0 <= i < |xs| && p in f(xs[i])
    decreases |xs|
  {
    if |xs| > 0 {
      var init := xs[..|xs| - 1];
      UnionMember(init, f, p);
      assert forall i :: 0 <= i < |init| ==> init[i] == xs[i];
      if p in Union(xs, f) && p !in f(xs[|xs| - 1]) {
        var i :| 0 <= i < |init| && p in f(init[i]);
        assert p in f(xs[i]);
      }
    }
  }

  /** What the script collects: the three lists of records and the search keys. */
  datatype Output = Output(heads: seq<Record>, hairs: seq<Record>, beards: seq<Record>, search: set<string>)

  function Merge(a: Output, b: Output): Output {
    Output(a.heads + b.heads, a.hairs + b.hairs, a.beards + b.beards, a.search + b.search)
  }

  lemma MergeAssoc(a: Output, b: Output, c: Output)
    ensures Merge(Merge(a, b), c) == Merge(a, Merge(b, c))
  {
    assert (a.heads + b.heads) + c.heads == a.heads + (b.heads + c.heads);
    assert (a.hairs + b.hairs) + c.hairs == a.hairs + (b.hairs + c.hairs);
    assert (a.beards + b.beards) + c.beards == a.beards + (b.beards + c.beards);
  }

  /** What the heads of a file add: their exports and their search keys. */
  function HeadsPart(hs: seq<HeadType>): Output {
    Output(Each(hs, HeadRecord), [], [], Union(hs, HeadSearch))
  }

  /** What the hairs of a file add. */
  function HairsPart(ha: seq<HairType>): Output {
    Output([], Each(ha, HairRecord), [], Union(ha, HairSearch))
  }

  /** What the beards of a file add: beards are exported and searched like hairs. */
  function BeardsPart(bs: seq<HairType>): Output {
    Output([], [], Each(bs, HairRecord), Union(bs, HairSearch))
  }

  /**
   * The second pass over one file: its concrete heads, then hairs, then beards, each resolved
   * against its own registry, read, exported and added to the search; the first that fails
   * stops the script.
   */
  function FileOutput(regs: Registries, root: Node): Result<Output> {
    var hs :- Emitted(Kids(root.children, "HeadTypeDef"), HeadEmitter(regs.heads));
    var ha :- Emitted(Kids(root.children, "HairDef"), HairEmitter(regs.hairs));
    var bs :- Emitted(Kids(root.children, "BeardDef"), HairEmitter(regs.beards));
    Ok(Merge(Merge(HeadsPart(hs), HairsPart(ha)), BeardsPart(bs)))
  }

  /** When the three loops of a file succeed, the file adds their exports and search keys. */
  lemma FileOutputOk(regs: Registries, root: Node, hs: seq<HeadType>, ha: seq<HairType>, bs: seq<HairType>)
    requires Emitted(Kids(root.children, "HeadTypeDef"), HeadEmitter(regs.heads)) == Ok(hs)
    requires Emitted(Kids(root.children, "HairDef"), HairEmitter(regs.hairs)) == Ok(ha)
    requires Emitted(Kids(root.children, "BeardDef"), HairEmitter(regs.beards)) == Ok(bs)
    ensures FileOutput(regs, root) == Ok(Merge(Merge(HeadsPart(hs), HairsPart(ha)), BeardsPart(bs)))
  {
  }

  /** A file whose heads fail fails with them. */
  lemma FileHeadsFail(regs: Registries, root: Node)
    requires Emitted(Kids(root.children, "HeadTypeDef"), HeadEmitter(regs.heads)).Err?
    ensures FileOutput(regs, root) == Err(Emitted(Kids(root.children, "HeadTypeDef"), HeadEmitter(regs.heads)).fault)
  {
  }

  /** A file whose heads are read but whose hairs fail fails with the hairs. */
  lemma FileHairsFail(regs: Registries, root: Node)
    requires Emitted(Kids(root.children, "HeadTypeDef"), HeadEmitter(regs.heads)).Ok?
    requires Emitted(Kids(root.children, "HairDef"), HairEmitter(regs.hairs)).Err?
    ensures FileOutput(regs, root) == Err(Emitted(Kids(root.children, "HairDef"), HairEmitter(regs.hairs)).fault)
  {
  }

  /** A file whose heads and hairs are read but whose beards fail fails with the beards. */
  lemma FileBeardsFail(regs: Registries, root: Node)
    requires Emitted(Kids(root.children, "HeadTypeDef"), HeadEmitter(regs.heads)).Ok?
    requires Emitted(Kids(root.children, "HairDef"), HairEmitter(regs.hairs)).Ok?
    requires Emitted(Kids(root.children, "BeardDef"), HairEmitter(regs.beards)).Err?
    ensures FileOutput(regs, root) == Err(Emitted(Kids(root.children, "BeardDef"), HairEmitter(regs.beards)).fault)
  {
  }

  /** Three additions one after the other are one addition of the three. */
  lemma MergeThree(o: Output, a: Output, b: Output, c: Output)
    ensures Merge(Merge(Merge(o, a), b), c) == Merge(o, Merge(Merge(a, b), c))
  {
    MergeAssoc(o, a, b);
    MergeAssoc(o, Merge(a, b), c);
  }

  /** The heads' part changes only the head list and the search. */
  lemma MergeHeads(o: Output, hs: seq<HeadType>)
    ensures Merge(o, HeadsPart(hs)) == Output(o.heads + Each(hs, HeadRecord), o.hairs, o.beards, o.search + Union(hs, HeadSearch))
  {
    assert o.hairs + [] == o.hairs && o.beards + [] == o.beards;
  }

  lemma MergeHairs(o: Output, ha: seq<HairType>)
    ensures Merge(o, HairsPart(ha)) == Output(o.heads, o.hairs + Each(ha, HairRecord), o.beards, o.search + Union(ha, HairSearch))
  {
    assert o.heads + [] == o.heads && o.beards + [] == o.beards;
  }

  lemma MergeBeards(o: Output, bs: seq<HairType>)
    ensures Merge(o, BeardsPart(bs)) == Output(o.heads, o.hairs, o.beards + Each(bs, HairRecord), o.search + Union(bs, HairSearch))
  {
    assert o.heads + [] == o.heads && o.hairs + [] == o.hairs;
  }

  /** The second pass over the files, one after the other. */
  function FilesOutput(regs: Registries, roots: seq<Node>): Result<Output>
    decreases |roots|
  {
    if |roots| == 0 then Ok(Output([], [], [], {}))
    else
      var before :- FilesOutput(regs, roots[..|roots| - 1]);
      var last :- FileOutput(regs, roots[|roots| - 1]);
      Ok(Merge(before, last))
  }

  lemma {:induction false} FilesOutputPrefix(regs: Registries, roots: seq<Node>, k: nat)
    requires k <= |roots| && FilesOutput(regs, roots[..k]).Err?
    ensures FilesOutput(regs, roots) == FilesOutput(regs, roots[..k])
    decreases |roots| - k
  {
    if k < |roots| {
      var init := roots[..|roots| - 1];
      assert init[..k] == roots[..k];
      FilesOutputPrefix(regs, init, k);
    } else {
      assert roots[..k] == roots;
    }
  }

  /** Every beard is exported with the hair shape: its keys are hair keys. */
  lemma BeardsHairShaped(regs: Registries, root: Node, i: nat, k: string)
    requires FileOutput(regs, root).Ok? && i < |FileOutput(regs, root).value.beards|
    requires k in Keys(FileOutput(regs, root).value.beards[i])
    ensures k in HairKeys
  {
    var bs := FileBeards(regs, root);
    EachAt(bs, HairRecord, i);
    HairRecordKeys(bs[i], k);
  }

  /** The beards a successful file exports are the records of its read beard definitions. */
  lemma FileBeards(regs: Registries, root: Node) returns (bs: seq<HairType>)
    requires FileOutput(regs, root).Ok?
    ensures Emitted(Kids(root.children, "BeardDef"), HairEmitter(regs.beards)) == Ok(bs)
    ensures FileOutput(regs, root).value.beards == Each(bs, HairRecord)
  {
    var hs := Emitted(Kids(root.children, "HeadTypeDef"), HeadEmitter(regs.heads)).value;
    var ha := Emitted(Kids(root.children, "HairDef"), HairEmitter(regs.hairs)).value;
    bs := Emitted(Kids(root.children, "BeardDef"), HairEmitter(regs.beards)).value;
    assert Merge(HeadsPart(hs), HairsPart(ha)).beards == [];
  }

  /** Abstract definitions are never read: every head of a file comes from a concrete definition. */
  lemma AbstractNeverEmitted(regs: Registries, root: Node, i: nat)
    requires FileOutput(regs, root).Ok? && i < |FileOutput(regs, root).value.heads|
    ensures var defs := Concrete(Kids(root.children, "HeadTypeDef"));
      i < |defs| && !IsAbstract(defs[i]) && defs[i] in root.children &&
      EmitHead(regs.heads, defs[i]).Ok? &&
      FileOutput(regs, root).value.heads[i] == HeadRecord(EmitHead(regs.heads, defs[i]).value)
  {
    var kids := Kids(root.children, "HeadTypeDef");
    var defs := Concrete(kids);
    var hs := FileHeads(regs, root);
    assert HeadEmitter(regs.heads)(defs[i]) == Ok(hs[i]);
    EachAt(hs, HeadRecord, i);
    ConcreteMembers(kids, defs[i]);
  }

  /** The heads of a file that is read whole: one per concrete head definition, in order. */
  lemma FileHeads(regs: Registries, root: Node) returns (hs: seq<HeadType>)
    requires FileOutput(regs, root).Ok?
    ensures TryMap(Concrete(Kids(root.children, "HeadTypeDef")), HeadEmitter(regs.heads)) == Ok(hs)
    ensures FileOutput(regs, root).value.heads == Each(hs, HeadRecord)
  {
    var kids := Kids(root.children, "HeadTypeDef");
    var heads := Emitted(kids, HeadEmitter(regs.heads));
    var hairs := Emitted(Kids(root.children, "HairDef"), HairEmitter(regs.hairs));
    var beards := Emitted(Kids(root.children, "BeardDef"), HairEmitter(regs.beards));
    if heads.Err? {
      FileHeadsFail(regs, root);
      assert false;
    }
    if hairs.Err? {
      FileHairsFail(regs, root);
      assert false;
    }
    if beards.Err? {
      FileBeardsFail(regs, root);
      assert false;
    }
    hs := heads.value;
    FileOutputOk(regs, root, hs, hairs.value, beards.value);
    assert Each(hs, HeadRecord) + [] + [] == Each(hs, HeadRecord);
    EmittedConcrete(kids, HeadEmitter(regs.heads));
  }

  /** What the whole script collects: the registries over all files, then the second pass over all files. */
  function ScriptOutput(roots: seq<Node>): Result<Output> {
    var regs :- RegisterAll(Registries(map[], map[], map[]), roots);
    FilesOutput(regs, roots)
  }

  // ---------------------------------------------------------------- the script's state

  /**
   * The state `bodyparts.py` builds up at module level: the three registries of abstract
   * definitions, the three lists of exported records and the set of texture paths to look up.
   */
  class BodypartScript {
    var abstractHeadTypes: map<string, Node>
    var abstractHairTypes: map<string, Node>
    var abstractBeards: map<string, Node>
    var headTypes: seq<Record>
    var hairTypes: seq<Record>
    var beardTypes: seq<Record>
    var graphicsSearch: set<string>

    function Regs(): Registries
      reads this
    {
      Registries(abstractHeadTypes, abstractHairTypes, abstractBeards)
    }

    function Out(): Output
      reads this
    {
      Output(headTypes, hairTypes, beardTypes, graphicsSearch)
    }

    constructor()
      ensures Regs() == Registries(map[], map[], map[]) && Out() == Output([], [], [], {})
    {
      abstractHeadTypes, abstractHairTypes, abstractBeards := map[], map[], map[];
      headTypes, hairTypes, beardTypes := [], [], [];
      graphicsSearch := {};
    }

    /** The first pass: for each file, its abstract heads, hairs and beards, each into its own registry. */
    method RegisterFiles(roots: seq<Node>) returns (r: Result<()>)
      modifies this`abstractHeadTypes, this`abstractHairTypes, this`abstractBeards
      ensures r.Ok? <==> RegisterAll(old(Regs()), roots).Ok?
      ensures r.Err? ==> r.fault == MissingKey("Name")
      ensures r.Ok? ==> Regs() == RegisterAll(old(Regs()), roots).value
    {
      ghost var start := Regs();
      for i := 0 to |roots|
        invariant Registered(start.heads, AllKids(roots[..i], "HeadTypeDef")) == Ok(abstractHeadTypes)
        invariant Registered(start.hairs, AllKids(roots[..i], "HairDef")) == Ok(abstractHairTypes)
        invariant Registered(start.beards, AllKids(roots[..i], "BeardDef")) == Ok(abstractBeards)
      {
        var heads := RegisterKind(start.heads, roots, i, "HeadTypeDef", abstractHeadTypes);
        if heads.Err? {
          RegisterAllParts(start, roots);
          return Err(heads.fault);
        }
        abstractHeadTypes := heads.value;
        var hairs := RegisterKind(start.hairs, roots, i, "HairDef", abstractHairTypes);
        if hairs.Err? {
          RegisterAllParts(start, roots);
          return Err(hairs.fault);
        }
        abstractHairTypes := hairs.value;
        var beards := RegisterKind(start.beards, roots, i, "BeardDef", abstractBeards);
        if beards.Err? {
          RegisterAllParts(start, roots);
          return Err(beards.fault);
        }
        abstractBeards := beards.value;
      }
      assert roots[..|roots|] == roots;
      RegisterAllParts(start, roots);
      return Ok(());
    }

    /** `for bdef in tree.iterfind("./<tag>")`: one file's definitions of one kind into that kind's registry. */
    static method RegisterKind(ghost start: map<string, Node>, roots: seq<Node>, i: nat, tag: string, reg: map<string, Node>)
      returns (r: Result<map<string, Node>>)
      requires i < |roots| && Registered(start, AllKids(roots[..i], tag)) == Ok(reg)
      ensures r.Err? ==> r.fault == MissingKey("Name") && Registered(start, AllKids(roots, tag)).Err?
      ensures r.Ok? ==> Registered(start, AllKids(roots[..i + 1], tag)) == r
    {
      AllKidsSnoc(roots, i, tag);
      RegisteredAppend(start, AllKids(roots[..i], tag), Kids(roots[i].children, tag));
      r := Register(reg, Kids(roots[i].children, tag));
      if r.Err? {
        AllKidsPrefix(roots, i + 1, tag);
        RegisteredPrefix(start, AllKids(roots[..i + 1], tag), AllKids(roots, tag));
      }
    }

    /** The second pass: each file in turn. */
    method ReadFiles(roots: seq<Node>) returns (r: Result<()>)
      modifies this`headTypes, this`hairTypes, this`beardTypes, this`graphicsSearch
      ensures r.Ok? <==> FilesOutput(Regs(), roots).Ok?
      ensures r.Err? ==> r.fault == FilesOutput(Regs(), roots).fault
      ensures r.Ok? ==> Out() == Merge(old(Out()), FilesOutput(Regs(), roots).value)
    {
      ghost var acc := Output([], [], [], {});
      assert Merge(old(Out()), acc) == Out();
      for i := 0 to |roots|
        invariant FilesOutput(Regs(), roots[..i]) == Ok(acc)
        invariant Out() == Merge(old(Out()), acc)
      {
        assert roots[..i + 1][..i] == roots[..i];
        ghost var before := Out();
        var step := ReadFile(roots[i], Regs());
        if step.Err? {
          FilesOutputPrefix(Regs(), roots, i + 1);
          return Err(step.fault);
        }
        MergeAssoc(old(Out()), acc, FileOutput(Regs(), roots[i]).value);
        acc := Merge(acc, FileOutput(Regs(), roots[i]).value);
      }
      assert roots[..|roots|] == roots;
      return Ok(());
    }

    /** The second pass over one file, against the registries `regs`: its heads, then its hairs, then its beards. */
    method ReadFile(root: Node, regs: Registries) returns (r: Result<()>)
      modifies this`headTypes, this`hairTypes, this`beardTypes, this`graphicsSearch
      ensures r.Ok? <==> FileOutput(regs, root).Ok?
      ensures r.Err? ==> r.fault == FileOutput(regs, root).fault
      ensures r.Ok? ==> Out() == Merge(old(Out()), FileOutput(regs, root).value)
    {
      var heads := ReadHeads(Kids(root.children, "HeadTypeDef"), regs.heads);
      if heads.Err? {
        FileHeadsFail(regs, root);
        return Err(heads.fault);
      }
      var hairs := ReadHairs(Kids(root.children, "HairDef"), regs.hairs);
      if hairs.Err? {
        FileHairsFail(regs, root);
        return Err(hairs.fault);
      }
      var beards := ReadBeards(Kids(root.children, "BeardDef"), regs.beards);
      if beards.Err? {
        FileBeardsFail(regs, root);
        return Err(beards.fault);
      }
      FileOutputOk(regs, root, heads.value, hairs.value, beards.value);
      MergeThree(old(Out()), HeadsPart(heads.value), HairsPart(hairs.value), BeardsPart(beards.value));
      return Ok(());
    }

    /** The loop over a file's `HeadTypeDef`s: abstract ones are skipped, the others resolved against the head registry and read. */
    method ReadHeads(defs: seq<Node>, reg: map<string, Node>) returns (r: Result<seq<HeadType>>)
      modifies this`headTypes, this`graphicsSearch
      ensures r == Emitted(defs, HeadEmitter(reg))
      ensures r.Ok? ==> Out() == Merge(old(Out()), HeadsPart(r.value))
    {
      var read :- EmitAll(defs, HeadEmitter(reg));
      AddHeads(read);
      MergeHeads(old(Out()), read);
      return Ok(read);
    }

    /** What the loop does with each head it read: add its search key and append its export. */
    method AddHeads(xs: seq<HeadType>)
      modifies this`headTypes, this`graphicsSearch
      ensures headTypes == old(headTypes) + Each(xs, HeadRecord)
      ensures graphicsSearch == old(graphicsSearch) + Union(xs, HeadSearch)
    {
      for i := 0 to |xs|
        invariant headTypes == old(headTypes) + Each(xs[..i], HeadRecord)
        invariant graphicsSearch == old(graphicsSearch) + Union(xs[..i], HeadSearch)
      {
        TakeSnoc(xs, i);
        EachSnoc(xs[..i], xs[i], HeadRecord);
        UnionSnoc(xs[..i], xs[i], HeadSearch);
        graphicsSearch := graphicsSearch + HeadSearch(xs[i]);
        var d := ExportHead(xs[i]);
        SnocAssoc(old(headTypes), Each(xs[..i], HeadRecord), d);
        headTypes := headTypes + [d];
      }
      assert xs[..|xs|] == xs;
    }

    /** The loop over a file's `HairDef`s, resolved against the hair registry and read with `hairType`. */
    method ReadHairs(defs: seq<Node>, reg: map<string, Node>) returns (r: Result<seq<HairType>>)
      modifies this`hairTypes, this`graphicsSearch
      ensures r == Emitted(defs, HairEmitter(reg))
      ensures r.Ok? ==> Out() == Merge(old(Out()), HairsPart(r.value))
    {
      var read :- EmitAll(defs, HairEmitter(reg));
      AddHairs(read);
      MergeHairs(old(Out()), read);
      return Ok(read);
    }

    /** What the loop does with each hair it read: add its search key and append its export. */
    method AddHairs(xs: seq<HairType>)
      modifies this`hairTypes, this`graphicsSearch
      ensures hairTypes == old(hairTypes) + Each(xs, HairRecord)
      ensures graphicsSearch == old(graphicsSearch) + Union(xs, HairSearch)
    {
      for i := 0 to |xs|
        invariant hairTypes == old(hairTypes) + Each(xs[..i], HairRecord)
        invariant graphicsSearch == old(graphicsSearch) + Union(xs[..i], HairSearch)
      {
        TakeSnoc(xs, i);
        EachSnoc(xs[..i], xs[i], HairRecord);
        UnionSnoc(xs[..i], xs[i], HairSearch);
        graphicsSearch := graphicsSearch + HairSearch(xs[i]);
        var d := ExportHair(xs[i]);
        SnocAssoc(old(hairTypes), Each(xs[..i], HairRecord), d);
        hairTypes := hairTypes + [d];
      }
      assert xs[..|xs|] == xs;
    }

    /** The loop over a file's `BeardDef`s, resolved against the beard registry and read with `hairType`. */
    method ReadBeards(defs: seq<Node>, reg: map<string, Node>) returns (r: Result<seq<HairType>>)
      modifies this`beardTypes, this`graphicsSearch
      ensures r == Emitted(defs, HairEmitter(reg))
      ensures r.Ok? ==> Out() == Merge(old(Out()), BeardsPart(r.value))
    {
      var read :- EmitAll(defs, HairEmitter(reg));
      AddBeards(read);
      MergeBeards(old(Out()), read);
      return Ok(read);
    }

    /** What the loop does with each beard it read: add its search key and append its export. */
    method AddBeards(xs: seq<HairType>)
      modifies this`beardTypes, this`graphicsSearch
      ensures beardTypes == old(beardTypes) + Each(xs, HairRecord)
      ensures graphicsSearch == old(graphicsSearch) + Union(xs, HairSearch)
    {
      for i := 0 to |xs|
        invariant beardTypes == old(beardTypes) + Each(xs[..i], HairRecord)
        invariant graphicsSearch == old(graphicsSearch) + Union(xs[..i], HairSearch)
      {
        TakeSnoc(xs, i);
        EachSnoc(xs[..i], xs[i], HairRecord);
        UnionSnoc(xs[..i], xs[i], HairSearch);
        graphicsSearch := graphicsSearch + HairSearch(xs[i]);
        var d := ExportHair(xs[i]);
        SnocAssoc(old(beardTypes), Each(xs[..i], HairRecord), d);
        beardTypes := beardTypes + [d];
      }
      assert xs[..|xs|] == xs;
    }
  }

  /** The loop itself, for any reader `f`. */
  method EmitAll<T>(defs: seq<Node>, f: Node -> Result<T>) returns (r: Result<seq<T>>)
    ensures r == Emitted(defs, f)
  {
    var out: seq<T> := [];
    for i := 0 to |defs|
      invariant Emitted(defs[..i], f) == Ok(out)
    {
      EmittedSnoc(defs, i, f);
      if IsAbstract(defs[i]) {
        continue;
      }
      var x := f(defs[i]);
      if x.Err? {
        EmittedStops(defs, i + 1, f);
        return Err(x.fault);
      }
      out := out + [x.value];
    }
    assert defs[..|defs|] == defs;
    return Ok(out);
  }

  /** A run of definitions that cannot be registered stays so whatever follows it. */
  lemma RegisteredPrefix(reg: map<string, Node>, pre: seq<Node>, defs: seq<Node>)
    requires pre <= defs && Registered(reg, pre).Err?
    ensures Registered(reg, defs).Err?
  {
    var i :| 0 <= i < |pre| && IsAbstract(pre[i]) && "Name" !in pre[i].attrs;
    assert pre[i] == defs[i];
  }

  /**
   * `bodyparts.py` end to end: a fresh state, the first pass over all files, then the second;
   * what it collects is `ScriptOutput`.
   */
  method Script(roots: seq<Node>) returns (r: Result<Output>)
    ensures r == ScriptOutput(roots)
  {
    var s := new BodypartScript();
    var registered := s.RegisterFiles(roots);
    if registered.Err? {
      return Err(registered.fault);
    }
    var read := s.ReadFiles(roots);
    if read.Err? {
      return Err(read.fault);
    }
    var out := FilesOutput(s.Regs(), roots).value;
    assert Merge(Output([], [], [], {}), out) == out;
    return Ok(s.Out());
  }
}
