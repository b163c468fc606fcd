/**
 * `scripts/genes.py`: gene definitions read from the game's XML, with one level of
 * inheritance from abstract definitions, the export sweep, the generated aptitude and drug
 * genes, the set of icon paths to look up, and the final rewrite of each icon path to its
 * place in the atlas.
 */
module Genes {
  import opened Wrappers
  import opened Text
  import opened Xml
  import opened Records
  import opened Defs
  import Graphics

  // ---------------------------------------------------------------- colours

  /** One channel of a colour tuple: `int(t)`, or `int(float(t) * 255)` when `t` holds a point. */
  function Channel(t: string): (r: Result<Value>)
    ensures Contains(t, ".") ==> r == Ok(Scaled(t))
    ensures !Contains(t, ".") ==> (r.Ok? <==> PyInt(t).Ok?) && (r.Ok? ==> r.value == Int(PyInt(t).value))
  {
    if Contains(t, ".") then Ok(Scaled(t))
    else
      match PyInt(t)
      case Ok(n) => Ok(Int(n))
      case Err(f) => Err(f)
  }

  /**
   * `parseColor(text)`: "(r,g,b)" with exactly three channels, each an integer or a fraction
   * of 255; the alpha is always 1.0.
   */
  function ParseColor(text: string): (r: Result<Value>)
    ensures |text| == 0 ==> r == Err(IndexOutOfRange)
    ensures |text| > 0 && (text[0] != '(' || text[|text| - 1] != ')') ==> r == Err(AssertionFailed)
    ensures r.Ok? ==> |text| >= 2 && |Split(text[1..|text| - 1], ',')| == 3
    ensures r.Ok? ==> r.value.Obj? && Keys(r.value.fields) == ["R", "G", "B", "A"]
    ensures r.Ok? ==> r.value.fields[3].1 == Real("1.0")
  {
    if |text| == 0 then Err(IndexOutOfRange)
    else if text[0] != '(' || text[|text| - 1] != ')' then Err(AssertionFailed)
    else Channels(text[1..|text| - 1])
  }

  /** What `parseColor` does inside the parentheses. */
  function Channels(inner: string): (r: Result<Value>)
    ensures r.Ok? ==> |Split(inner, ',')| == 3
    ensures r.Ok? ==> r.value.Obj? && Keys(r.value.fields) == ["R", "G", "B", "A"]
    ensures r.Ok? ==> r.value.fields[3].1 == Real("1.0")
  {
    var parts := Split(inner, ',');
    if |parts| != 3 then Err(BadValue("unpack"))
    else
      var red :- Channel(parts[0]);
      var green :- Channel(parts[1]);
      var blue :- Channel(parts[2]);
      Ok(Obj([("R", red), ("G", green), ("B", blue), ("A", Real("1.0"))]))
  }

  /** The colour the game writes as "(r,g,b)" with integer channels, e.g. "(255,128,0)". */
  function IntColor(red: int, green: int, blue: int): Value {
    Obj([("R", Int(red)), ("G", Int(green)), ("B", Int(blue)), ("A", Real("1.0"))])
  }

  /** Integer channels are read back unchanged. */
  lemma ParseColorInts(red: int, green: int, blue: int)
    ensures ParseColor("(" + ShowInt(red) + "," + ShowInt(green) + "," + ShowInt(blue) + ")") == Ok(IntColor(red, green, blue))
  {
    var a, b, c := ShowInt(red), ShowInt(green), ShowInt(blue);
    StringAssoc("(", a, ",");
    StringAssoc("(", a + ",", b);
    StringAssoc("(", a + "," + b, ",");
    StringAssoc("(", a + "," + b + ",", c);
    ParseParens(a + "," + b + "," + c);
    ChannelsInts(red, green, blue);
  }

  lemma StringAssoc(x: string, y: string, z: string)
    ensures x + y + z == x + (y + z)
  {
  }

  /** `parseColor` reads what lies between the parentheses. */
  lemma ParseParens(inner: string)
    ensures ParseColor("(" + inner + ")") == Channels(inner)
  {
    var text := "(" + inner + ")";
    assert text[1..|text| - 1] == inner;
  }

  lemma ChannelsInts(red: int, green: int, blue: int)
    ensures Channels(ShowInt(red) + "," + ShowInt(green) + "," + ShowInt(blue)) == Ok(IntColor(red, green, blue))
  {
    ChannelShowInt(red);
    ChannelShowInt(green);
    ChannelShowInt(blue);
    SplitThree(ShowInt(red), ShowInt(green), ShowInt(blue));
  }

  lemma SplitThree(a: string, b: string, c: string)
    requires ',' !in a && ',' !in b && ',' !in c
    ensures Split(a + "," + b + "," + c, ',') == [a, b, c]
  {
    var parts := [a, b, c];
    assert Join(parts, ',') == a + "," + b + "," + c by {
      assert parts[1..] == [b, c];
      assert Join(parts[1..], ',') == b + "," + c by {
        assert parts[1..][1..] == [c];
      }
    }
    JoinSplit(parts, ',');
  }

  /** An integer channel as `str()` writes it is read back unchanged and holds no comma. */
  lemma ChannelShowInt(n: int)
    ensures Channel(ShowInt(n)) == Ok(Int(n)) && ',' !in ShowInt(n)
  {
    ShowIntChars(n);
    ContainsChar(ShowInt(n), '.');
    PyIntShowInt(n);
  }

  /** An optional colour field: absent stays absent. */
  function OptionalColor(t: Option<string>): Result<Value> {
    match t
    case None => Ok(Null)
    case Some(s) => ParseColor(s)
  }

  // ---------------------------------------------------------------- one gene definition

  /** The fields `gene.__init__` reads. Colours are `Null` or a colour object; `melanin` is `Null` or a float. */
  datatype Gene = Gene(
    defName: Option<string>, labelText: Option<string>, labelShortAdj: Option<string>,
    geneClass: Option<string>, desc: string, iconPath: Option<string>, iconColor: Value,
    displayCategory: Option<string>, displayOrder: int, metabolism: int, complexity: int,
    exclusionTags: seq<Value>, abilities: seq<Value>, forcedTraits: Record,
    statOffsets: Record, statFactors: Record, damageFactors: Record, disabledWork: seq<Value>,
    endogeneCategory: Option<string>, skinColor: Value, skinColorOverride: Value,
    hairColor: Value, bodyType: Option<string>, melanin: Value)

  /**
   * One `forcedTraits` entry: the trait named by `def` (a missing name becomes the JSON key
   * "null") forced at `degree`, 0 when that is missing.
   */
  function ForcedTrait(li: Node): (r: Result<(string, Value)>)
    ensures FindText(li, "degree").None? ==> r == Ok((FindText(li, "def").GetOr("null"), Int(0)))
    ensures FindText(li, "degree").Some? ==>
      (r.Ok? <==> PyInt(FindText(li, "degree").value).Ok?)
    ensures r.Ok? ==> r.value.0 == FindText(li, "def").GetOr("null") && r.value.1.Int?
  {
    var degree :- IntOr(FindText(li, "degree"), 0);
    Ok((FindText(li, "def").GetOr("null"), Int(degree)))
  }

  /**
   * `gene(bdef)`: a definition without a description fails (`None.replace`); the literal
   * two characters backslash-n in it become a line break; the display order and metabolism
   * default to 0 and the complexity to 1.
   */
  function GeneOf(def: Node): (r: Result<Gene>)
    ensures FindText(def, "description").None? ==> r == Err(NoneAttribute)
    ensures r.Ok? ==> FindText(def, "displayOrderInCategory").None? ==> r.value.displayOrder == 0
    ensures r.Ok? ==> FindText(def, "biostatMet").None? ==> r.value.metabolism == 0
    ensures r.Ok? ==> FindText(def, "biostatCpx").None? ==> r.value.complexity == 1
    ensures r.Ok? ==> r.value.iconPath == FindText(def, "iconPath")
  {
    var desc := FindText(def, "description");
    if desc.None? then Err(NoneAttribute)
    else
      var iconColor :- OptionalColor(FindText(def, "iconColor"));
      var displayOrder :- IntOr(FindText(def, "displayOrderInCategory"), 0);
      var metabolism :- IntOr(FindText(def, "biostatMet"), 0);
      var complexity :- IntOr(FindText(def, "biostatCpx"), 1);
      var forcedTraits :- Gather(Items(def, "forcedTraits"), ForcedTrait);
      var statOffsets :- Gather(Under(def, "statOffsets"), FloatEntry);
      var statFactors :- Gather(Under(def, "statFactors"), FloatEntry);
      var damageFactors :- Gather(Under(def, "damageFactors"), FloatEntry);
      var skinColor :- OptionalColor(FindText(def, "skinColorBase"));
      var skinColorOverride :- OptionalColor(FindText(def, "skinColorOverride"));
      var hairColor :- OptionalColor(FindText(def, "hairColorOverride"));
      Ok(Gene(
        FindText(def, "defName"), FindText(def, "label"), FindText(def, "labelShortAdj"),
        FindText(def, "geneClass"), Replace(desc.value, "\\n", "\n"), FindText(def, "iconPath"), iconColor,
        FindText(def, "displayCategory"), displayOrder, metabolism, complexity,
        TextValues(Items(def, "exclusionTags")), TextValues(Items(def, "abilities")), forcedTraits,
        statOffsets, statFactors, damageFactors, TextValues(Items(def, "disabledWorkTags")),
        FindText(def, "endogeneCategory"), skinColor, skinColorOverride,
        hairColor, FindText(def, "bodyType"), OptionalReal(FindText(def, "minMelanin"))))
  }

  /** `gene.__init__`, with its loops over `forcedTraits` and the three stat groups. */
  method InitGene(def: Node) returns (r: Result<Gene>)
    ensures r == GeneOf(def)
  {
    var desc := FindText(def, "description");
    if desc.None? {
      return Err(NoneAttribute);
    }
    var iconColor :- OptionalColor(FindText(def, "iconColor"));
    var displayOrder :- IntOr(FindText(def, "displayOrderInCategory"), 0);
    var metabolism :- IntOr(FindText(def, "biostatMet"), 0);
    var complexity :- IntOr(FindText(def, "biostatCpx"), 1);
    var forcedTraits :- Collect(Items(def, "forcedTraits"), ForcedTrait);
    var statOffsets :- Collect(Under(def, "statOffsets"), FloatEntry);
    var statFactors :- Collect(Under(def, "statFactors"), FloatEntry);
    var damageFactors :- Collect(Under(def, "damageFactors"), FloatEntry);
    var skinColor :- OptionalColor(FindText(def, "skinColorBase"));
    var skinColorOverride :- OptionalColor(FindText(def, "skinColorOverride"));
    var hairColor :- OptionalColor(FindText(def, "hairColorOverride"));
    return Ok(Gene(
      FindText(def, "defName"), FindText(def, "label"), FindText(def, "labelShortAdj"),
      FindText(def, "geneClass"), Replace(desc.value, "\\n", "\n"), FindText(def, "iconPath"), iconColor,
      FindText(def, "displayCategory"), displayOrder, metabolism, complexity,
      TextValues(Items(def, "exclusionTags")), TextValues(Items(def, "abilities")), forcedTraits,
      statOffsets, statFactors, damageFactors, TextValues(Items(def, "disabledWorkTags")),
      FindText(def, "endogeneCategory"), skinColor, skinColorOverride,
      hairColor, FindText(def, "bodyType"), OptionalReal(FindText(def, "minMelanin"))));
  }

  // ---------------------------------------------------------------- export

  /** The keys of the dict `gene.export` builds, in its order. */
  const ExportKeys: seq<string> := [
    "name", "label", "labelShortAdj", "desc", "iconPath", "iconColor",
    "displayCategory", "displayOrder", "metabolism", "complexity", "exclusionTags", "skills",
    "abilities", "traits", "statOffsets", "statFactors", "damageFactors", "disabledWork",
    "endogeneCategory", "skinColor", "skinColorOverride", "hairColor", "bodyType", "melanin"]

  /** The values `gene.export` writes under those keys; `skills` is always `{}`. */
  function ExportValues(g: Gene): (vs: seq<Value>)
    ensures |vs| == |ExportKeys|
  {
    [TextValue(g.defName), TextValue(g.labelText), TextValue(g.labelShortAdj), Str(g.desc),
     TextValue(g.iconPath), g.iconColor, TextValue(g.displayCategory), Int(g.displayOrder),
     Int(g.metabolism), Int(g.complexity), List(g.exclusionTags), Obj([]),
     List(g.abilities), Obj(g.forcedTraits), Obj(g.statOffsets), Obj(g.statFactors),
     Obj(g.damageFactors), List(g.disabledWork), TextValue(g.endogeneCategory), g.skinColor,
     g.skinColorOverride, g.hairColor, TextValue(g.bodyType), g.melanin]
  }

  /** The dict `gene.export` builds before the sweep. */
  function ExportFields(g: Gene): Record {
    Zip(ExportKeys, ExportValues(g))
  }

  lemma ExportKeysDistinct()
    ensures Distinct(ExportKeys)
  {
  }

  /** What `gene.export` returns: a dict, and every key it has is one `export` writes. */
  function Export(g: Gene): (r: Record)
    ensures Unique(r)
    ensures forall k :: k in Keys(r) ==> k in ExportKeys
  {
    SparseFieldsUnique(g);
    Sparse(ExportFields(g))
  }

  /** `gene.export`: build the dict, then pop every key whose value is None, [] or {}. */
  method ExportGene(g: Gene) returns (d: Record)
    ensures d == Export(g)
  {
    ExportKeysDistinct();
    SweptAt(ExportKeys, ExportValues(g), 0);
    d := Sweep(ExportFields(g));
  }

  lemma SparseFieldsUnique(g: Gene)
    ensures Unique(Sparse(ExportFields(g)))
    ensures forall k :: k in Keys(Sparse(ExportFields(g))) ==> k in ExportKeys
  {
    ExportKeysDistinct();
    SweptAt(ExportKeys, ExportValues(g), 0);
    forall k | k in Keys(Sparse(ExportFields(g))) ensures k in ExportKeys {
      SweptKeys(ExportKeys, ExportValues(g), k);
    }
  }

  /** Field number `i` of the export is in the exported record exactly when its value is not vacant. */
  lemma ExportAt(g: Gene, i: nat, k: string, v: Value)
    requires i < |ExportKeys| && ExportKeys[i] == k && ExportValues(g)[i] == v
    ensures Get(Export(g), k) == if Vacant(v) then None else Some(v)
  {
    ExportKeysDistinct();
    SweptAt(ExportKeys, ExportValues(g), i);
  }

  /** The `"skills": {}` placeholder never survives the sweep. */
  lemma ExportNoSkills(g: Gene)
    ensures "skills" !in Keys(Export(g))
  {
    assert ExportKeys[11] == "skills";
    ExportAt(g, 11, "skills", Obj([]));
  }

  /** Numbers are kept even when zero: the sweep tests for None and emptiness, not falsiness. */
  lemma ExportDisplayOrder(g: Gene)
    ensures Get(Export(g), "displayOrder") == Some(Int(g.displayOrder))
  {
    assert ExportKeys[7] == "displayOrder";
    ExportAt(g, 7, "displayOrder", Int(g.displayOrder));
  }

  /** The icon path is exported exactly when the definition has one, as text. */
  lemma ExportIconPath(g: Gene)
    ensures Get(Export(g), "iconPath") == if g.iconPath.Some? then Some(Str(g.iconPath.value)) else None
  {
    assert ExportKeys[4] == "iconPath";
    ExportAt(g, 4, "iconPath", TextValue(g.iconPath));
  }

  // ---------------------------------------------------------------- inheritance

  /** What `./GeneDef[@Abstract='True']` selects. */
  predicate IsAbstractDef(d: Node) {
    d.tag == "GeneDef" && "Abstract" in d.attrs && d.attrs["Abstract"] == "True"
  }

  /** What the second loop reads: a `GeneDef` with no `Abstract` attribute at all. */
  predicate IsConcreteDef(d: Node) {
    d.tag == "GeneDef" && "Abstract" !in d.attrs
  }

  /**
   * The first loop over a file: every abstract definition is registered under its `Name`
   * (a later one replacing an earlier one); one without a `Name` is a fatal lookup.
   */
  function Registered(reg: map<string, Node>, defs: seq<Node>): (r: Result<map<string, Node>>)
    ensures r.Err? <==> exists i :: 0 <= i < |defs| && IsAbstractDef(defs[i]) && "Name" !in defs[i].attrs
    ensures r.Err? ==> r.fault == MissingKey("Name")
    ensures r.Ok? ==> reg.Keys <= r.value.Keys
    decreases |defs|
  {
    if |defs| == 0 then Ok(reg)
    else
      var init := defs[..|defs| - 1];
      var d := defs[|defs| - 1];
      assert forall i :: 0 <= i < |init| ==> init[i] == defs[i];
      var before :- Registered(reg, init);
      if !IsAbstractDef(d) then Ok(before)
      else if "Name" !in d.attrs then Err(MissingKey("Name"))
      else Ok(before[d.attrs["Name"] := d])
  }

  /** Every abstract definition of the file can be found under its name afterwards. */
  lemma {:induction false} RegisteredFinds(reg: map<string, Node>, defs: seq<Node>, i: nat)
    requires Registered(reg, defs).Ok? && i < |defs| && IsAbstractDef(defs[i])
    ensures "Name" in defs[i].attrs && defs[i].attrs["Name"] in Registered(reg, defs).value
    decreases |defs|
  {
    var init := defs[..|defs| - 1];
    assert forall j :: 0 <= j < |init| ==> init[j] == defs[j];
    if i < |defs| - 1 {
      RegisteredFinds(reg, init, i);
    }
  }

  /**
   * `bdef.extend(abstract[ParentName])`: the parent's children go after the definition's
   * own; a parent that is not registered is a fatal lookup. Only the registered parent
   * itself is appended: its own `ParentName` is not followed.
   */
  function Resolve(reg: map<string, Node>, d: Node): (r: Result<Node>)
    ensures "ParentName" !in d.attrs ==> r == Ok(d)
    ensures "ParentName" in d.attrs ==> (r.Ok? <==> d.attrs["ParentName"] in reg)
    ensures "ParentName" in d.attrs && r.Err? ==> r.fault == MissingKey(d.attrs["ParentName"])
    ensures "ParentName" in d.attrs && r.Ok? ==>
      r.value.children == d.children + reg[d.attrs["ParentName"]].children
  {
    if "ParentName" !in d.attrs then Ok(d)
    else
      var parent := d.attrs["ParentName"];
      if parent !in reg then Err(MissingKey(parent)) else Ok(Extend(d, reg[parent]))
  }

  /** A definition's own fields win over its parent's, and its own list items come first. */
  lemma ResolveOwnFirst(reg: map<string, Node>, d: Node, tag: string, group: string)
    requires "ParentName" in d.attrs && Resolve(reg, d).Ok?
    ensures FindText(Resolve(reg, d).value, tag) ==
      if FindText(d, tag).Some? then FindText(d, tag) else FindText(reg[d.attrs["ParentName"]], tag)
    ensures Items(Resolve(reg, d).value, group) == Items(d, group) + Items(reg[d.attrs["ParentName"]], group)
  {
    var parent := reg[d.attrs["ParentName"]];
    FindTextExtend(d, parent, tag);
    ItemsExtend(d, parent, group);
  }

  /** The concrete definitions of a file, in order. */
  function Concrete(defs: seq<Node>): (r: seq<Node>)
    ensures forall d :: d in r <==> d in defs && IsConcreteDef(d)
    decreases |defs|
  {
    if |defs| == 0 then []
    else
      var init := defs[..|defs| - 1];
      var d := defs[|defs| - 1];
      assert forall x :: x in defs <==> x in init || x == d;
      Concrete(init) + (if IsConcreteDef(d) then [d] else [])
  }

  /** One concrete definition, read and exported. */
  function Emit(reg: map<string, Node>, d: Node): Result<Record> {
    var n :- Resolve(reg, d);
    var g :- GeneOf(n);
    Ok(Export(g))
  }

  /** `Emit` with the registry of a file fixed, as its second loop applies it. */
  function Emitter(reg: map<string, Node>): Node -> Result<Record> {
    d => Emit(reg, d)
  }

  /** The exported genes of the concrete definitions, stopping at the first that fails. */
  function EmitAll(reg: map<string, Node>, cs: seq<Node>): Result<seq<Record>> {
    TryMap(cs, Emitter(reg))
  }

  lemma {:induction false} RegisteredPrefix(reg: map<string, Node>, defs: seq<Node>, k: nat)
    requires k <= |defs| && Registered(reg, defs[..k]).Err?
    ensures Registered(reg, defs).Err?
  {
    var i :| 0 <= i < k && IsAbstractDef(defs[..k][i]) && "Name" !in defs[..k][i].attrs;
    assert defs[..k][i] == defs[i];
  }

  // ---------------------------------------------------------------- icons to look up

  /** The icon path a gene record carries, if it carries one. */
  function IconOf(r: Record): set<string> {
    var v := Get(r, "iconPath");
    if v.Some? && v.value.Str? then {v.value.s} else {}
  }

  /** The icon paths of the gene records. */
  function Icons(rs: seq<Record>): set<string>
    decreases |rs|
  {
    if |rs| == 0 then {} else Icons(rs[..|rs| - 1]) + IconOf(rs[|rs| - 1])
  }

  lemma IconsSnoc(rs: seq<Record>, r: Record)
    ensures Icons(rs + [r]) == Icons(rs) + IconOf(r)
  {
    assert (rs + [r])[..|rs|] == rs;
  }

  /** An exported gene carries its icon path exactly when it has one. */
  lemma ExportIcon(g: Gene)
    ensures IconOf(Export(g)) == if g.iconPath.Some? then {g.iconPath.value} else {}
  {
    ExportIconPath(g);
  }

  // ---------------------------------------------------------------- generated genes

  /**
   * What a pair of nested generator loops appends: for each row key, for each column key,
   * `cell(row, column, order)`, where `order` counts the records from 0.
   */
  function Grid<R, C>(rows: seq<R>, cols: seq<C>, cell: (R, C, nat) -> Record): (g: seq<Record>)
    decreases |rows|
  {
    if |rows| == 0 then []
    else
      var done := Grid(rows[..|rows| - 1], cols, cell);
      done + Row(rows[|rows| - 1], cols, cell, |done|)
  }

  /** One turn of the outer loop: the inner loop over the column keys, numbering from `start`. */
  function Row<R, C>(row: R, cols: seq<C>, cell: (R, C, nat) -> Record, start: nat): (g: seq<Record>)
    ensures |g| == |cols|
    decreases |cols|
  {
    if |cols| == 0 then []
    else Row(row, cols[..|cols| - 1], cell, start) + [cell(row, cols[|cols| - 1], start + |cols| - 1)]
  }

  lemma RowStep<R, C>(row: R, cols: seq<C>, cell: (R, C, nat) -> Record, start: nat, j: nat, order: nat)
    requires j < |cols| && order == start + j
    ensures Row(row, cols[..j + 1], cell, start) == Row(row, cols[..j], cell, start) + [cell(row, cols[j], order)]
  {
    assert cols[..j + 1][..j] == cols[..j];
  }

  lemma GridStep<R, C>(rows: seq<R>, cols: seq<C>, cell: (R, C, nat) -> Record, i: nat)
    requires i < |rows|
    ensures Grid(rows[..i + 1], cols, cell) ==
      Grid(rows[..i], cols, cell) + Row(rows[i], cols, cell, |Grid(rows[..i], cols, cell)|)
  {
    assert rows[..i + 1][..i] == rows[..i];
  }

  /** The `j`-th record of a row is the cell of the `j`-th column key, numbered `start + j`. */
  lemma {:induction false} RowAt<R, C>(row: R, cols: seq<C>, cell: (R, C, nat) -> Record, start: nat, j: nat)
    requires j < |cols|
    ensures Row(row, cols, cell, start)[j] == cell(row, cols[j], start + j)
    decreases |cols|
  {
    if j < |cols| - 1 {
      RowAt(row, cols[..|cols| - 1], cell, start, j);
    }
  }

  /** The grid holds one record per row key and column key, row after row. */
  lemma {:induction false} GridAt<R, C>(rows: seq<R>, cols: seq<C>, cell: (R, C, nat) -> Record, i: nat, j: nat)
    requires i < |rows| && j < |cols|
    ensures |Grid(rows, cols, cell)| == |rows| * |cols|
    ensures i * |cols| + j < |Grid(rows, cols, cell)|
    ensures Grid(rows, cols, cell)[i * |cols| + j] == cell(rows[i], cols[j], i * |cols| + j)
    decreases |rows|
  {
    var init := rows[..|rows| - 1];
    GridLength(init, cols, cell);
    var done := Grid(init, cols, cell);
    assert |Grid(rows, cols, cell)| == |done| + |cols| == (|rows| - 1) * |cols| + |cols|;
    if i < |rows| - 1 {
      GridAt(init, cols, cell, i, j);
      MulLeft(i, |rows| - 1, |cols|);
    } else {
      RowAt(rows[i], cols, cell, |done|, j);
    }
  }

  /** `GridAt` for a position `k` given by the caller. */
  lemma GridCell<R, C>(rows: seq<R>, cols: seq<C>, cell: (R, C, nat) -> Record, i: nat, j: nat, k: nat)
    requires i < |rows| && j < |cols| && k == i * |cols| + j
    ensures |Grid(rows, cols, cell)| == |rows| * |cols|
    ensures k < |Grid(rows, cols, cell)| && Grid(rows, cols, cell)[k] == cell(rows[i], cols[j], k)
  {
    GridAt(rows, cols, cell, i, j);
  }

  lemma {:induction false} GridLength<R, C>(rows: seq<R>, cols: seq<C>, cell: (R, C, nat) -> Record)
    ensures |Grid(rows, cols, cell)| == |rows| * |cols|
    decreases |rows|
  {
    if |rows| > 0 {
      GridLength(rows[..|rows| - 1], cols, cell);
      assert (|rows| - 1) * |cols| + |cols| == |rows| * |cols|;
    }
  }

  lemma {:induction false} MulLeft(i: nat, n: nat, c: nat)
    requires i < n
    ensures i * c + c <= n * c
    decreases n
  {
    if i + 1 < n {
      MulLeft(i, n - 1, c);
      assert (n - 1) * c + c == n * c;
    }
  }

  /** The nested generator loops, collecting the records in order. */
  method GridLoop<R, C>(rows: seq<R>, cols: seq<C>, cell: (R, C, nat) -> Record) returns (grid: seq<Record>)
    ensures grid == Grid(rows, cols, cell)
  {
    grid := [];
    for i := 0 to |rows|
      invariant grid == Grid(rows[..i], cols, cell)
    {
      var row := RowLoop(rows[i], cols, cell, |grid|);
      GridStep(rows, cols, cell, i);
      grid := grid + row;
    }
    assert rows[..|rows|] == rows;
  }

  /** The inner loop: one record per column key, numbered from `start`. */
  method RowLoop<R, C>(row: R, cols: seq<C>, cell: (R, C, nat) -> Record, start: nat) returns (g: seq<Record>)
    ensures g == Row(row, cols, cell, start)
  {
    g := [];
    var order := start;
    for j := 0 to |cols|
      invariant order == start + j
      invariant g == Row(row, cols[..j], cell, start)
    {
      RowStep(row, cols, cell, start, j, order);
      g := g + [cell(row, cols[j], order)];
      order := order + 1;
    }
    assert cols[..|cols|] == cols;
  }

  /** Every record of a grid is a cell, so it carries a text icon path when every cell does. */
  lemma GridTextIcons<R, C>(rows: seq<R>, cols: seq<C>, cell: (R, C, nat) -> Record)
    requires forall r, c, o: nat :: TextIcon(cell(r, c, o))
    ensures forall k :: 0 <= k < |Grid(rows, cols, cell)| ==> TextIcon(Grid(rows, cols, cell)[k])
  {
    GridNumbered(rows, cols, cell, (rec, o) => TextIcon(rec));
  }

  /** When every cell carries its own number as its display order, every record of the grid carries its position. */
  lemma GridOrder<R, C>(rows: seq<R>, cols: seq<C>, cell: (R, C, nat) -> Record)
    requires forall r, c, o: nat :: Get(cell(r, c, o), "displayOrder") == Some(Int(o))
    ensures forall k :: 0 <= k < |Grid(rows, cols, cell)| ==> Get(Grid(rows, cols, cell)[k], "displayOrder") == Some(Int(k))
  {
    GridNumbered(rows, cols, cell, (rec, o) => Get(rec, "displayOrder") == Some(Int(o)));
  }

  /** A property every cell has with its own number, every record of the grid has with its position. */
  lemma {:induction false} GridNumbered<R, C>(rows: seq<R>, cols: seq<C>, cell: (R, C, nat) -> Record, p: (Record, nat) -> bool)
    requires forall r, c, o: nat :: p(cell(r, c, o), o)
    ensures forall k :: 0 <= k < |Grid(rows, cols, cell)| ==> p(Grid(rows, cols, cell)[k], k)
    decreases |rows|
  {
    if |rows| > 0 {
      var init := rows[..|rows| - 1];
      GridNumbered(init, cols, cell, p);
      var done := Grid(init, cols, cell);
      var row := Row(rows[|rows| - 1], cols, cell, |done|);
      RowNumbered(rows[|rows| - 1], cols, cell, |done|, p);
      assert Grid(rows, cols, cell) == done + row;
      forall k | 0 <= k < |done + row|
        ensures p((done + row)[k], k)
      {
        if k >= |done| {
          assert (done + row)[k] == row[k - |done|];
        } else {
          assert (done + row)[k] == done[k];
        }
      }
    }
  }

  /** The records of one row have the property with the numbers from `start` on. */
  lemma {:induction false} RowNumbered<R, C>(row: R, cols: seq<C>, cell: (R, C, nat) -> Record, start: nat, p: (Record, nat) -> bool)
    requires forall r, c, o: nat :: p(cell(r, c, o), o)
    ensures forall j :: 0 <= j < |Row(row, cols, cell, start)| ==> p(Row(row, cols, cell, start)[j], start + j)
    decreases |cols|
  {
    if |cols| > 0 {
      RowNumbered(row, cols[..|cols| - 1], cell, start, p);
    }
  }

  const Skills: seq<string> := ["Shooting", "Melee", "Construction", "Mining", "Cooking",
    "Plants", "Animals", "Crafting", "Artistic", "Medicine", "Intellectual"]

  /** One aptitude level: its key, the adjective of its label, the skill offset, metabolism and complexity. */
  datatype AptitudeLevel = AptitudeLevel(key: string, adjective: string, offset: int, metabolism: int, complexity: int)

  const AptitudeLevels: seq<AptitudeLevel> := [
    AptitudeLevel("Terrible", "Awful", -8, 1, 2), AptitudeLevel("Poor", "Poor", -4, 1, 1),
    AptitudeLevel("Strong", "Strong", 4, 2, -1), AptitudeLevel("Remarkable", "Great", 8, 2, -3)]

  function Abs(n: int): nat {
    if n < 0 then -n else n
  }

  function AptitudeDesc(skill: string, offset: int): string {
    "The carrier's aptitude in " + skill + " is " + (if offset < 0 then "reduced" else "increased")
    + " by " + ShowInt(Abs(offset)) + ". Aptitude acts like an offset on skill level."
    + (if offset < 0 then " Additionally, all passion is removed from " + skill + "." else "")
  }

  function AptitudeName(skill: string, level: AptitudeLevel): string {
    "Aptitude" + level.key + "_" + skill
  }

  function AptitudeIconPath(skill: string, level: AptitudeLevel): string {
    "UI/Icons/Genes/Skills/" + skill + "/" + level.key
  }

  /** The keys of an aptitude gene, in the order the generator writes them. */
  const AptitudeKeys: seq<string> := [
    "name", "label", "desc", "iconPath", "displayCategory", "displayOrder",
    "metabolism", "complexity", "exclusionTags", "skills"]

  /** The values of the aptitude gene for `skill` at `level`, in display position `order`. */
  function AptitudeValues(skill: string, level: AptitudeLevel, order: nat): (vs: seq<Value>)
    ensures |vs| == |AptitudeKeys|
    ensures vs[0] == Str(AptitudeName(skill, level)) && vs[3] == Str(AptitudeIconPath(skill, level))
    ensures vs[5] == Int(order) && vs[9] == Obj([(skill, Int(level.offset))])
  {
    [Str(AptitudeName(skill, level)), Str(level.adjective + " " + skill),
     Str(AptitudeDesc(skill, level.offset)), Str(AptitudeIconPath(skill, level)),
     Str("Aptitudes"), Int(order), Int(level.metabolism), Int(level.complexity),
     List([Str("Aptitude" + skill)]), Obj([(skill, Int(level.offset))])]
  }

  /** The aptitude gene for `skill` at `level`, in display position `order`. */
  function Aptitude(skill: string, level: AptitudeLevel, order: nat): Record {
    Zip(AptitudeKeys, AptitudeValues(skill, level, order))
  }

  /** All aptitude genes, skill by skill, each skill's levels in order. */
  function Aptitudes(): seq<Record> {
    Grid(Skills, AptitudeLevels, Aptitude)
  }

  lemma AptitudeKeysDistinct()
    ensures Distinct(AptitudeKeys)
    ensures AptitudeKeys[0] == "name" && AptitudeKeys[3] == "iconPath"
    ensures AptitudeKeys[5] == "displayOrder" && AptitudeKeys[9] == "skills"
  {
  }

  /**
   * An aptitude record is a dict carrying its name, its icon path, its display order and,
   * as its only effect, the level's offset on its one skill.
   */
  lemma AptitudeRecord(skill: string, level: AptitudeLevel, order: nat)
    ensures Unique(Aptitude(skill, level, order))
    ensures Get(Aptitude(skill, level, order), "name") == Some(Str(AptitudeName(skill, level)))
    ensures Get(Aptitude(skill, level, order), "iconPath") == Some(Str(AptitudeIconPath(skill, level)))
    ensures Get(Aptitude(skill, level, order), "displayOrder") == Some(Int(order))
    ensures Get(Aptitude(skill, level, order), "skills") == Some(Obj([(skill, Int(level.offset))]))
  {
    var vs := AptitudeValues(skill, level, order);
    AptitudeKeysDistinct();
    ZipGet(AptitudeKeys, vs, 0);
    ZipGet(AptitudeKeys, vs, 3);
    ZipGet(AptitudeKeys, vs, 5);
    ZipGet(AptitudeKeys, vs, 9);
  }

  /** Forty-four aptitude genes, the one for skill `s` and level `l` at position `4 * s + l`, each numbered by its position. */
  lemma AptitudesLayout(s: nat, l: nat)
    requires s < |Skills| && l < |AptitudeLevels|
    ensures |Aptitudes()| == 44
    ensures Aptitudes()[4 * s + l] == Aptitude(Skills[s], AptitudeLevels[l], 4 * s + l)
    ensures forall k :: 0 <= k < |Aptitudes()| ==> Get(Aptitudes()[k], "displayOrder") == Some(Int(k))
  {
    GridCell(Skills, AptitudeLevels, Aptitude, s, l, 4 * s + l);
    forall skill, level, order: nat ensures Get(Aptitude(skill, level, order), "displayOrder") == Some(Int(order)) {
      AptitudeRecord(skill, level, order);
    }
    GridOrder(Skills, AptitudeLevels, Aptitude);
  }

  /** No skill and no level key holds the `_` the name puts between them, and none repeats. */
  lemma SkillsPlain()
    ensures forall i :: 0 <= i < |Skills| ==> '_' !in Skills[i]
    ensures Distinct(Skills)
  {
  }

  lemma LevelsPlain()
    ensures forall i :: 0 <= i < |AptitudeLevels| ==> '_' !in AptitudeLevels[i].key
    ensures forall i, j :: 0 <= i < j < |AptitudeLevels| ==> AptitudeLevels[i].key != AptitudeLevels[j].key
  {
  }

  /** Names built from a level key and a skill without `_` in them tell both apart. */
  lemma AptitudeNameInjective(a1: string, b1: string, a2: string, b2: string)
    requires '_' !in a1 && '_' !in b1 && '_' !in a2 && '_' !in b2
    requires "Aptitude" + a1 + "_" + b1 == "Aptitude" + a2 + "_" + b2
    ensures a1 == a2 && b1 == b2
  {
    var n1, n2 := "Aptitude" + a1 + "_" + b1, "Aptitude" + a2 + "_" + b2;
    assert n1[8..] == a1 + "_" + b1;
    assert n2[8..] == a2 + "_" + b2;
    JoinPairInjective(a1, b1, a2, b2, '_');
  }

  /** Two different skill and level pairs give two different gene names. */
  lemma AptitudeNamesDistinct(s1: nat, l1: nat, s2: nat, l2: nat)
    requires s1 < |Skills| && l1 < |AptitudeLevels| && s2 < |Skills| && l2 < |AptitudeLevels|
    requires (s1, l1) != (s2, l2)
    ensures AptitudeName(Skills[s1], AptitudeLevels[l1]) != AptitudeName(Skills[s2], AptitudeLevels[l2])
  {
    SkillsPlain();
    LevelsPlain();
    if AptitudeName(Skills[s1], AptitudeLevels[l1]) == AptitudeName(Skills[s2], AptitudeLevels[l2]) {
      AptitudeNameInjective(AptitudeLevels[l1].key, Skills[s1], AptitudeLevels[l2].key, Skills[s2]);
    }
  }

  /** One drug: its key, the name in labels and descriptions, and the flag that picks the first metabolism of each level. */
  datatype Drug = Drug(key: string, name: string, firstMetabolism: bool)

  const Drugs: seq<Drug> := [
    Drug("Alcohol", "Alcohol", true), Drug("Smokeleaf", "Smokeleaf", true),
    Drug("Psychite", "Psychite", false), Drug("GoJuice", "Go-juice", false), Drug("WakeUp", "Wake-up", false)]

  /** The description of each drug level, given the drug's name. */
  datatype DrugText = Dependency | Resistance | Immunity

  /** One drug level: its key, the word of its label, its description, its complexity and its two metabolism values. */
  datatype DrugLevel = DrugLevel(key: string, word: string, text: DrugText, complexity: int, metabolism: (int, int))

  const DrugLevels: seq<DrugLevel> := [
    DrugLevel("ChemicalDependency", "dependency", Dependency, 1, (3, 4)),
    DrugLevel("AddictionResistant", "resistant", Resistance, 1, (-1, -2)),
    DrugLevel("AddictionImmune", "impervious", Immunity, 2, (-3, -5))]

  function DrugDesc(text: DrugText, x: string): string {
    match text
    case Dependency =>
      "Carriers of this gene need to ingest " + Lower(x) + " on a regular basis to survive. After 5 days without "
      + Lower(x) + ", carriers will suffer from drug deficiency. After 30 days, they will fall into a coma. After 60 days, they will die."
    case Resistance => "Carriers are only half as likely to become addicted to " + x + "."
    case Immunity => "Carriers of this gene never get addicted to " + x + "."
  }

  function DrugIconPath(drug: Drug, level: DrugLevel): string {
    "UI/Icons/Genes/Chemicals/" + drug.key + "/" + level.key
  }

  function DrugMetabolism(drug: Drug, level: DrugLevel): int {
    if drug.firstMetabolism then level.metabolism.0 else level.metabolism.1
  }

  /** The keys of a drug gene, in the order the generator writes them. */
  const DrugKeys: seq<string> := [
    "name", "label", "desc", "iconPath", "displayCategory", "displayOrder",
    "metabolism", "complexity", "exclusionTags"]

  /** The values of the gene for `drug` at `level`, in display position `order`. */
  function DrugValues(drug: Drug, level: DrugLevel, order: nat): (vs: seq<Value>)
    ensures |vs| == |DrugKeys|
    ensures vs[3] == Str(DrugIconPath(drug, level)) && vs[5] == Int(order) && vs[6] == Int(DrugMetabolism(drug, level))
  {
    [Str(level.key + "_" + drug.key), Str(drug.name + " " + level.word),
     Str(DrugDesc(level.text, drug.name)), Str(DrugIconPath(drug, level)),
     Str("Drugs"), Int(order), Int(DrugMetabolism(drug, level)),
     Int(level.complexity), List([Str("Drug" + drug.key)])]
  }

  /** The gene for `drug` at `level`, in display position `order`. */
  function DrugGene(drug: Drug, level: DrugLevel, order: nat): Record {
    Zip(DrugKeys, DrugValues(drug, level, order))
  }

  /** All drug genes, drug by drug, each drug's levels in order; the display order counts from 0 again. */
  function DrugGenes(): seq<Record> {
    Grid(Drugs, DrugLevels, DrugGene)
  }

  lemma DrugKeysDistinct()
    ensures Distinct(DrugKeys) && "skills" !in DrugKeys
    ensures DrugKeys[3] == "iconPath" && DrugKeys[5] == "displayOrder" && DrugKeys[6] == "metabolism"
  {
  }

  /** A drug record is a dict carrying its icon path, its display order and its metabolism, and no skills. */
  lemma DrugRecord(drug: Drug, level: DrugLevel, order: nat)
    ensures Unique(DrugGene(drug, level, order))
    ensures Get(DrugGene(drug, level, order), "iconPath") == Some(Str(DrugIconPath(drug, level)))
    ensures Get(DrugGene(drug, level, order), "displayOrder") == Some(Int(order))
    ensures Get(DrugGene(drug, level, order), "metabolism") == Some(Int(DrugMetabolism(drug, level)))
    ensures Get(DrugGene(drug, level, order), "skills") == None
  {
    var vs := DrugValues(drug, level, order);
    DrugKeysDistinct();
    ZipGet(DrugKeys, vs, 3);
    ZipGet(DrugKeys, vs, 5);
    ZipGet(DrugKeys, vs, 6);
    ZipMissing(DrugKeys, vs, "skills");
  }

  /** Fifteen drug genes, the one for drug `d` and level `l` at position `3 * d + l`, each numbered by its position. */
  lemma DrugGenesLayout(d: nat, l: nat)
    requires d < |Drugs| && l < |DrugLevels|
    ensures |DrugGenes()| == 15
    ensures DrugGenes()[3 * d + l] == DrugGene(Drugs[d], DrugLevels[l], 3 * d + l)
    ensures forall k :: 0 <= k < |DrugGenes()| ==> Get(DrugGenes()[k], "displayOrder") == Some(Int(k))
  {
    GridCell(Drugs, DrugLevels, DrugGene, d, l, 3 * d + l);
    forall drug, level, order: nat ensures Get(DrugGene(drug, level, order), "displayOrder") == Some(Int(order)) {
      DrugRecord(drug, level, order);
    }
    GridOrder(Drugs, DrugLevels, DrugGene);
  }

  /** A drug's metabolism is the first of its level's pair exactly when the drug is flagged. */
  lemma DrugMetabolismFirst(d: nat, l: nat)
    requires d < |Drugs| && l < |DrugLevels|
    ensures DrugMetabolism(Drugs[d], DrugLevels[l]) == DrugLevels[l].metabolism.0 <==> Drugs[d].firstMetabolism
  {
    assert forall i :: 0 <= i < |DrugLevels| ==> DrugLevels[i].metabolism.0 != DrugLevels[i].metabolism.1;
  }

  /** A record with an icon path that is text, as every generated record has. */
  predicate TextIcon(r: Record) {
    Unique(r) && Get(r, "iconPath").Some? && Get(r, "iconPath").value.Str?
  }

  lemma GeneratedRecords()
    ensures forall skill, level, order: nat :: TextIcon(Aptitude(skill, level, order))
    ensures forall drug, level, order: nat :: TextIcon(DrugGene(drug, level, order))
  {
    forall skill, level, order: nat ensures TextIcon(Aptitude(skill, level, order)) {
      AptitudeRecord(skill, level, order);
    }
    forall drug, level, order: nat ensures TextIcon(DrugGene(drug, level, order)) {
      DrugRecord(drug, level, order);
    }
  }

  lemma IconsStep(done: seq<Record>, row: seq<Record>, gene: Record)
    ensures Icons(done + (row + [gene])) == Icons(done + row) + IconOf(gene)
  {
    assert done + (row + [gene]) == (done + row) + [gene];
    IconsSnoc(done + row, gene);
  }

  lemma SeqAssoc(a: seq<Record>, b: seq<Record>, c: seq<Record>)
    ensures a + b + c == a + (b + c)
  {
  }

  lemma AppendAssoc(base: seq<Record>, xs: seq<Record>, ys: seq<Record>, x: Record)
    ensures (base + xs + ys) + [x] == base + xs + (ys + [x])
  {
  }

  // ---------------------------------------------------------------- reading a file

  lemma {:induction false} ConcreteAppend(a: seq<Node>, b: seq<Node>)
    ensures Concrete(a + b) == Concrete(a) + Concrete(b)
    decreases |b|
  {
    if |b| > 0 {
      var init := b[..|b| - 1];
      assert (a + b)[..|a + b| - 1] == a + init;
      ConcreteAppend(a, init);
    } else {
      assert a + b == a;
    }
  }

  lemma ConcreteSnoc(defs: seq<Node>, i: nat)
    requires i < |defs|
    ensures Concrete(defs[..i + 1]) == Concrete(defs[..i]) + if IsConcreteDef(defs[i]) then [defs[i]] else []
  {
    assert defs[..i + 1][..i] == defs[..i];
  }

  /** A definition that is not concrete leaves what the concrete ones map to as it was. */
  lemma MapSkip(defs: seq<Node>, i: nat, f: Node -> Result<Record>, added: seq<Record>)
    requires i < |defs| && !IsConcreteDef(defs[i])
    requires TryMap(Concrete(defs[..i]), f) == Ok(added)
    ensures TryMap(Concrete(defs[..i + 1]), f) == Ok(added)
  {
    ConcreteSnoc(defs, i);
    assert Concrete(defs[..i]) + [] == Concrete(defs[..i]);
  }

  /** A concrete definition that maps to a record adds that record to what the concrete ones map to. */
  lemma MapNext(defs: seq<Node>, i: nat, f: Node -> Result<Record>, added: seq<Record>, rec: Record)
    requires i < |defs| && IsConcreteDef(defs[i]) && f(defs[i]) == Ok(rec)
    requires TryMap(Concrete(defs[..i]), f) == Ok(added)
    ensures TryMap(Concrete(defs[..i + 1]), f) == Ok(added + [rec])
  {
    ConcreteSnoc(defs, i);
    TryMapSnoc(Concrete(defs[..i]), defs[i], f);
  }

  /** A concrete definition is found in the concrete definitions after the ones before it. */
  lemma ConcreteAt(defs: seq<Node>, i: nat)
    requires i < |defs| && IsConcreteDef(defs[i])
    ensures |Concrete(defs[..i])| < |Concrete(defs)| && Concrete(defs)[|Concrete(defs[..i])|] == defs[i]
  {
    ConcreteSnoc(defs, i);
    assert defs == defs[..i + 1] + defs[i + 1..];
    ConcreteAppend(defs[..i + 1], defs[i + 1..]);
  }

  /** A concrete definition that fails makes the whole file fail. */
  lemma MapFails(defs: seq<Node>, i: nat, f: Node -> Result<Record>)
    requires i < |defs| && IsConcreteDef(defs[i]) && f(defs[i]).Err?
    ensures TryMap(Concrete(defs), f).Err?
  {
    ConcreteAt(defs, i);
    TryMapFails(Concrete(defs), f, |Concrete(defs[..i])|);
  }

  /** What one definitions file adds: the registry after its abstract definitions and the exported genes of its concrete ones. */
  function ReadSpec(reg: map<string, Node>, root: Node): (r: Result<(map<string, Node>, seq<Record>)>)
    ensures r.Ok? ==> Registered(reg, root.children) == Ok(r.value.0)
    ensures r.Ok? ==> |r.value.1| == |Concrete(root.children)|
  {
    var next :- Registered(reg, root.children);
    var added :- EmitAll(next, Concrete(root.children));
    Ok((next, added))
  }

  /** What the files add, read one after the other with one registry. */
  function ReadAllSpec(reg: map<string, Node>, roots: seq<Node>): Result<(map<string, Node>, seq<Record>)>
    decreases |roots|
  {
    if |roots| == 0 then Ok((reg, []))
    else
      var before :- ReadAllSpec(reg, roots[..|roots| - 1]);
      var step :- ReadSpec(before.0, roots[|roots| - 1]);
      Ok((step.0, before.1 + step.1))
  }

  lemma {:induction false} IconsAppend(a: seq<Record>, b: seq<Record>)
    ensures Icons(a + b) == Icons(a) + Icons(b)
    decreases |b|
  {
    if |b| > 0 {
      var init, last := b[..|b| - 1], b[|b| - 1];
      IconsAppend(a, init);
      assert (a + b)[..|a + b| - 1] == a + init;
      assert (a + b)[|a + b| - 1] == last;
    } else {
      assert a + b == a;
    }
  }

  /** Every icon path the gene records carry is one of their own. */
  lemma {:induction false} IconsMember(rs: seq<Record>, p: string)
    ensures p in Icons(rs) <==> exists i :: 0 <= i < |rs| && p in IconOf(rs[i])
    decreases |rs|
  {
    if |rs| > 0 {
      var init := rs[..|rs| - 1];
      IconsMember(init, p);
      assert forall i :: 0 <= i < |init| ==> init[i] == rs[i];
      if p in Icons(rs) && p !in IconOf(rs[|rs| - 1]) {
        var i :| 0 <= i < |init| && p in IconOf(init[i]);
        assert p in IconOf(rs[i]);
      }
    }
  }

  /** A record whose icon path, if it has one, is text. */
  predicate HasTextIcon(r: Record) {
    var v := Get(r, "iconPath");
    v.None? || v.value.Str?
  }

  /** A definition that resolves and reads as a gene is emitted as that gene's export, a dict with a text icon path if any. */
  lemma EmitGene(reg: map<string, Node>, d: Node, g: Gene)
    requires Resolve(reg, d).Ok? && GeneOf(Resolve(reg, d).value) == Ok(g)
    ensures Emit(reg, d) == Ok(Export(g))
    ensures Unique(Export(g)) && HasTextIcon(Export(g))
    ensures IconOf(Export(g)) == if g.iconPath.Some? then {g.iconPath.value} else {}
  {
    ExportIcon(g);
    ExportIconPath(g);
  }

  /** Every record a definition of a file is emitted as is a dict whose icon path, if any, is text. */
  lemma EmitterRecords(reg: map<string, Node>)
    ensures forall d :: Emitter(reg)(d).Ok? ==> Unique(Emitter(reg)(d).value) && HasTextIcon(Emitter(reg)(d).value)
  {
    forall d | Emitter(reg)(d).Ok?
      ensures Unique(Emitter(reg)(d).value) && HasTextIcon(Emitter(reg)(d).value)
    {
      EmitGene(reg, d, GeneOf(Resolve(reg, d).value).value);
    }
  }


  // ---------------------------------------------------------------- rewriting icon paths

  /**
   * `g["iconPath"] = gfxDef[g["iconPath"]]` for a gene that has an icon path: the path
   * becomes its offset in the atlas; a path the atlas lacks is a fatal lookup.
   */
  function WithIcon(g: Record, gfx: Record): (r: Result<Record>)
    requires Unique(g)
    ensures Get(g, "iconPath").None? ==> r == Ok(g)
    ensures HasTextIcon(g) && Get(g, "iconPath").Some? ==>
      (r.Ok? <==> Get(g, "iconPath").value.s in Keys(gfx))
    ensures r.Err? && HasTextIcon(g) ==> r.fault == MissingKey(Get(g, "iconPath").value.s)
    ensures r.Ok? ==> Unique(r.value) && Keys(r.value) == Keys(g)
    ensures r.Ok? && Get(g, "iconPath").Some? ==> Get(g, "iconPath").value.Str? && Get(r.value, "iconPath") == Get(gfx, Get(g, "iconPath").value.s)
  {
    var icon := Get(g, "iconPath");
    if icon.None? then Ok(g)
    else if !icon.value.Str? then Err(BadValue("iconPath"))
    else
      var offset := Get(gfx, icon.value.s);
      if offset.None? then Err(MissingKey(icon.value.s))
      else
        PutGet(g, "iconPath", offset.value, "iconPath");
        Ok(Put(g, "iconPath", offset.value))
  }

  /** Rewriting the icon path leaves every other field as it was. */
  lemma WithIconOthers(g: Record, gfx: Record, k: string)
    requires Unique(g) && WithIcon(g, gfx).Ok? && k != "iconPath"
    ensures Get(WithIcon(g, gfx).value, k) == Get(g, k)
  {
    var icon := Get(g, "iconPath");
    if icon.Some? {
      PutGet(g, "iconPath", Get(gfx, icon.value.s).value, k);
    }
  }

  /** The icon rewrite over all genes; the first missing path ends it. */
  function WithIcons(rs: seq<Record>, gfx: Record): (r: Result<seq<Record>>)
    requires forall i :: 0 <= i < |rs| ==> Unique(rs[i])
    ensures r.Ok? ==> |r.value| == |rs| && forall i :: 0 <= i < |rs| ==> WithIcon(rs[i], gfx) == Ok(r.value[i])
    decreases |rs|
  {
    if |rs| == 0 then Ok([])
    else
      var init := rs[..|rs| - 1];
      assert forall i :: 0 <= i < |init| ==> init[i] == rs[i];
      var done :- WithIcons(init, gfx);
      var last :- WithIcon(rs[|rs| - 1], gfx);
      Ok(done + [last])
  }

  /** The rewrite fails exactly when the rewrite of some record fails. */
  lemma {:induction false} WithIconsFails(rs: seq<Record>, gfx: Record)
    requires forall i :: 0 <= i < |rs| ==> Unique(rs[i])
    ensures WithIcons(rs, gfx).Err? <==> exists i :: 0 <= i < |rs| && WithIcon(rs[i], gfx).Err?
    decreases |rs|
  {
    if |rs| > 0 {
      var init := rs[..|rs| - 1];
      assert forall i :: 0 <= i < |init| ==> init[i] == rs[i];
      WithIconsFails(init, gfx);
      if WithIcons(init, gfx).Err? {
        var i :| 0 <= i < |init| && WithIcon(init[i], gfx).Err?;
        assert WithIcon(rs[i], gfx).Err?;
      }
    }
  }

  /** One turn of the rewriting loop: `g["iconPath"] = gfxDef[g["iconPath"]]` when `g` has an icon path. */
  method RewriteIcon(g: Record, gfx: Record) returns (r: Result<Record>)
    requires Unique(g) && HasTextIcon(g)
    ensures r == WithIcon(g, gfx)
  {
    var icon := Get(g, "iconPath");
    if icon.None? {
      return Ok(g);
    }
    var offset := Get(gfx, icon.value.s);
    if offset.None? {
      return Err(MissingKey(icon.value.s));
    }
    return Ok(Put(g, "iconPath", offset.value));
  }

  /** Rewriting every record one by one is rewriting the list. */
  lemma WithIconsAll(rs: seq<Record>, gfx: Record, out: seq<Record>)
    requires forall i :: 0 <= i < |rs| ==> Unique(rs[i])
    requires |out| == |rs| && forall i :: 0 <= i < |rs| ==> WithIcon(rs[i], gfx) == Ok(out[i])
    ensures WithIcons(rs, gfx) == Ok(out)
  {
    var r := WithIcons(rs, gfx);
    WithIconsFails(rs, gfx);
    assert r.Ok?;
    assert |r.value| == |out|;
    forall i | 0 <= i < |rs|
      ensures r.value[i] == out[i]
    {
      assert WithIcon(rs[i], gfx) == Ok(r.value[i]);
    }
    assert r.value == out;
  }

  /** The rewrite succeeds exactly when the atlas holds every icon path the genes carry. */
  lemma IconsResolved(rs: seq<Record>, gfx: Record)
    requires forall i :: 0 <= i < |rs| ==> Unique(rs[i]) && HasTextIcon(rs[i])
    ensures WithIcons(rs, gfx).Ok? <==> forall p :: p in Icons(rs) ==> p in Keys(gfx)
  {
    WithIconsFails(rs, gfx);
    if WithIcons(rs, gfx).Ok? {
      forall p | p in Icons(rs) ensures p in Keys(gfx) {
        IconsMember(rs, p);
        var i :| 0 <= i < |rs| && p in IconOf(rs[i]);
        assert WithIcon(rs[i], gfx).Ok?;
      }
    } else {
      var i :| 0 <= i < |rs| && WithIcon(rs[i], gfx).Err?;
      var p := Get(rs[i], "iconPath").value.s;
      assert p in IconOf(rs[i]);
      IconsMember(rs, p);
    }
  }

  // ---------------------------------------------------------------- the script's state

  /**
   * The state `genes.py` builds up at module level: the registry of abstract definitions,
   * the exported genes in order, and the set of icon paths to look up in the graphics.
   */
  class GeneScript {
    var abstractDefs: map<string, Node>
    var genes: seq<Record>
    var graphicsSearch: set<string>

    /** Every gene is a dict whose icon path, if any, is text and is among the paths to look up. */
    predicate Valid()
      reads this
    {
      (forall i :: 0 <= i < |genes| ==> Unique(genes[i]) && HasTextIcon(genes[i]))
      && Icons(genes) <= graphicsSearch
    }

    constructor()
      ensures Valid() && abstractDefs == map[] && genes == [] && graphicsSearch == {}
    {
      abstractDefs := map[];
      genes := [];
      graphicsSearch := {};
    }

    /** Appending one gene record keeps the state valid once its icon path is added to the search. */
    lemma AppendValid(rec: Record, icons: set<string>)
      requires Valid() && Unique(rec) && HasTextIcon(rec) && IconOf(rec) <= icons
      ensures Icons(genes + [rec]) <= graphicsSearch + icons
      ensures forall i :: 0 <= i < |genes + [rec]| ==> Unique((genes + [rec])[i]) && HasTextIcon((genes + [rec])[i])
    {
      IconsSnoc(genes, rec);
    }

    /**
     * One definitions file: register its abstract definitions, then read and export each
     * concrete one, adding its icon path to the search.
     */
    method ReadFile(root: Node) returns (r: Result<()>)
      requires Valid()
      modifies this
      ensures r.Ok? <==> ReadSpec(old(abstractDefs), root).Ok?
      ensures r.Ok? ==> abstractDefs == ReadSpec(old(abstractDefs), root).value.0
      ensures r.Ok? ==> genes == old(genes) + ReadSpec(old(abstractDefs), root).value.1
      ensures r.Ok? ==> graphicsSearch == old(graphicsSearch) + Icons(ReadSpec(old(abstractDefs), root).value.1)
      ensures r.Ok? ==> Valid()
    {
      var registered := Register(root.children);
      if registered.Err? {
        return Err(registered.fault);
      }
      abstractDefs := registered.value;
      EmitterRecords(abstractDefs);
      var emitted := ReadDefs(root.children, Emitter(abstractDefs));
      if emitted.Err? {
        return Err(emitted.fault);
      }
      return Ok(());
    }

    /** The first loop over a file: `abstract[bdef.attrib["Name"]] = bdef` for each abstract definition. */
    method Register(defs: seq<Node>) returns (r: Result<map<string, Node>>)
      ensures r == Registered(abstractDefs, defs)
    {
      var reg := abstractDefs;
      for i := 0 to |defs|
        invariant Registered(abstractDefs, defs[..i]) == Ok(reg)
      {
        assert defs[..i + 1][..i] == defs[..i];
        var d := defs[i];
        if IsAbstractDef(d) {
          if "Name" !in d.attrs {
            RegisteredPrefix(abstractDefs, defs, i + 1);
            return Err(MissingKey("Name"));
          }
          reg := reg[d.attrs["Name"] := d];
        }
      }
      assert defs[..|defs|] == defs;
      return Ok(reg);
    }

    /**
     * The second loop over a file: every concrete definition, in order, is read by `emit`
     * (the inheritance step, `gene(bdef)` and `export`), its icon path joins the search and
     * its record is appended to the genes.
     */
    method ReadDefs(defs: seq<Node>, emit: Node -> Result<Record>) returns (r: Result<()>)
      requires Valid()
      requires forall d :: emit(d).Ok? ==> Unique(emit(d).value) && HasTextIcon(emit(d).value)
      modifies this`genes, this`graphicsSearch
      ensures r.Ok? <==> TryMap(Concrete(defs), emit).Ok?
      ensures r.Ok? ==> genes == old(genes) + TryMap(Concrete(defs), emit).value
      ensures r.Ok? ==> graphicsSearch == old(graphicsSearch) + Icons(TryMap(Concrete(defs), emit).value)
      ensures r.Ok? ==> Valid()
    {
      ghost var added: seq<Record> := [];
      for i := 0 to |defs|
        invariant TryMap(Concrete(defs[..i]), emit) == Ok(added)
        invariant genes == old(genes) + added
        invariant graphicsSearch == old(graphicsSearch) + Icons(added)
        invariant Valid()
      {
        var step := ReadNext(defs, i, emit, added);
        if step.Err? {
          return Err(step.fault);
        }
        IconsAppend(added, step.value);
        SeqAssoc(old(genes), added, step.value);
        added := added + step.value;
      }
      assert defs[..|defs|] == defs;
      return Ok(());
    }

    /** One pass of the second loop: a definition that is not concrete is skipped, a concrete one is read. */
    method ReadNext(defs: seq<Node>, i: nat, emit: Node -> Result<Record>, ghost added: seq<Record>)
      returns (r: Result<seq<Record>>)
      requires i < |defs| && Valid()
      requires forall d :: emit(d).Ok? ==> Unique(emit(d).value) && HasTextIcon(emit(d).value)
      requires TryMap(Concrete(defs[..i]), emit) == Ok(added)
      modifies this`genes, this`graphicsSearch
      ensures r.Err? ==> TryMap(Concrete(defs), emit).Err?
      ensures r.Ok? ==> TryMap(Concrete(defs[..i + 1]), emit) == Ok(added + r.value)
      ensures r.Ok? ==> genes == old(genes) + r.value && graphicsSearch == old(graphicsSearch) + Icons(r.value)
      ensures r.Ok? ==> Valid()
    {
      if !IsConcreteDef(defs[i]) {
        MapSkip(defs, i, emit, added);
        assert Icons([]) == {};
        assert added + [] == added && old(genes) + [] == old(genes);
        return Ok([]);
      }
      r := ReadConcrete(defs, i, emit, added);
    }

    /** A concrete definition is read; a failure stops the loop. */
    method ReadConcrete(defs: seq<Node>, i: nat, emit: Node -> Result<Record>, ghost added: seq<Record>)
      returns (r: Result<seq<Record>>)
      requires i < |defs| && IsConcreteDef(defs[i]) && Valid()
      requires forall d :: emit(d).Ok? ==> Unique(emit(d).value) && HasTextIcon(emit(d).value)
      requires TryMap(Concrete(defs[..i]), emit) == Ok(added)
      modifies this`genes, this`graphicsSearch
      ensures r.Err? ==> TryMap(Concrete(defs), emit).Err?
      ensures r.Ok? ==> TryMap(Concrete(defs[..i + 1]), emit) == Ok(added + r.value)
      ensures r.Ok? ==> genes == old(genes) + r.value && graphicsSearch == old(graphicsSearch) + Icons(r.value)
      ensures r.Ok? ==> Valid()
    {
      var rec := emit(defs[i]);
      if rec.Err? {
        MapFails(defs, i, emit);
        return Err(rec.fault);
      }
      MapNext(defs, i, emit, added, rec.value);
      IconsSnoc([], rec.value);
      AppendRecord(rec.value);
      return Ok([rec.value]);
    }

    /** `genes.append(record)` and its icon path added to the search. */
    method AppendRecord(rec: Record)
      requires Valid() && Unique(rec) && HasTextIcon(rec)
      modifies this`genes, this`graphicsSearch
      ensures genes == old(genes) + [rec] && graphicsSearch == old(graphicsSearch) + IconOf(rec)
      ensures Valid()
    {
      AppendValid(rec, IconOf(rec));
      graphicsSearch := graphicsSearch + IconOf(rec);
      genes := genes + [rec];
    }

    /** The loop over the definitions files. */
    method ReadFiles(roots: seq<Node>) returns (r: Result<()>)
      requires Valid()
      modifies this
      ensures r.Ok? <==> ReadAllSpec(old(abstractDefs), roots).Ok?
      ensures r.Ok? ==> abstractDefs == ReadAllSpec(old(abstractDefs), roots).value.0
      ensures r.Ok? ==> genes == old(genes) + ReadAllSpec(old(abstractDefs), roots).value.1
      ensures r.Ok? ==> graphicsSearch == old(graphicsSearch) + Icons(ReadAllSpec(old(abstractDefs), roots).value.1)
      ensures r.Ok? ==> Valid()
    {
      ghost var added: seq<Record> := [];
      for i := 0 to |roots|
        invariant ReadAllSpec(old(abstractDefs), roots[..i]) == Ok((abstractDefs, added))
        invariant genes == old(genes) + added
        invariant graphicsSearch == old(graphicsSearch) + Icons(added)
        invariant Valid()
      {
        assert roots[..i + 1][..i] == roots[..i];
        ghost var reg := abstractDefs;
        ghost var search := graphicsSearch;
        ghost var before := genes;
        var step := ReadFile(roots[i]);
        if step.Err? {
          ReadAllPrefix(old(abstractDefs), roots, i + 1);
          return Err(step.fault);
        }
        ghost var more := ReadSpec(reg, roots[i]).value.1;
        IconsAppend(added, more);
        SeqAssoc(old(genes), added, more);
        added := added + more;
      }
      assert roots[..|roots|] == roots;
      return Ok(());
    }

    /**
     * The shape both generators share: for each row key, for each column key, append the
     * generated gene and add its icon path to the search, counting the genes in `order`.
     */
    method AddGrid<R, C>(rows: seq<R>, cols: seq<C>, cell: (R, C, nat) -> Record)
      requires Valid()
      requires forall r, c, o: nat :: TextIcon(cell(r, c, o))
      modifies this
      ensures genes == old(genes) + Grid(rows, cols, cell)
      ensures graphicsSearch == old(graphicsSearch) + Icons(Grid(rows, cols, cell))
      ensures abstractDefs == old(abstractDefs)
      ensures Valid()
    {
      GridTextIcons(rows, cols, cell);
      var grid := GridLoop(rows, cols, cell);
      ExtendValid(grid);
      genes := genes + grid;
      graphicsSearch := graphicsSearch + Icons(grid);
    }

    /** Appending generated records keeps the state valid once their icon paths are added to the search. */
    lemma ExtendValid(rs: seq<Record>)
      requires Valid() && forall k :: 0 <= k < |rs| ==> TextIcon(rs[k])
      ensures Icons(genes + rs) <= graphicsSearch + Icons(rs)
      ensures forall i :: 0 <= i < |genes + rs| ==> Unique((genes + rs)[i]) && HasTextIcon((genes + rs)[i])
    {
      IconsAppend(genes, rs);
      forall i | 0 <= i < |genes + rs|
        ensures Unique((genes + rs)[i]) && HasTextIcon((genes + rs)[i])
      {
        if i >= |genes| {
          assert (genes + rs)[i] == rs[i - |genes|];
        }
      }
    }

    /** The generated aptitude genes, appended after the ones read from files. */
    method AddAptitudes()
      requires Valid()
      modifies this
      ensures genes == old(genes) + Aptitudes()
      ensures graphicsSearch == old(graphicsSearch) + Icons(Aptitudes())
      ensures abstractDefs == old(abstractDefs)
      ensures Valid()
    {
      GeneratedRecords();
      AddGrid(Skills, AptitudeLevels, Aptitude);
    }

    /** The generated drug genes, appended after the aptitudes. */
    method AddDrugs()
      requires Valid()
      modifies this
      ensures genes == old(genes) + DrugGenes()
      ensures graphicsSearch == old(graphicsSearch) + Icons(DrugGenes())
      ensures abstractDefs == old(abstractDefs)
      ensures Valid()
    {
      GeneratedRecords();
      AddGrid(Drugs, DrugLevels, DrugGene);
    }

    /** `g["iconPath"] = gfxDef[g["iconPath"]]` over every gene that has an icon path. */
    method RewriteIcons(gfx: Record) returns (r: Result<()>)
      requires Valid()
      modifies this
      ensures r.Ok? <==> WithIcons(old(genes), gfx).Ok?
      ensures r.Ok? ==> genes == WithIcons(old(genes), gfx).value
      ensures abstractDefs == old(abstractDefs) && graphicsSearch == old(graphicsSearch)
    {
      for i := 0 to |genes|
        invariant |genes| == |old(genes)|
        invariant forall j :: 0 <= j < i ==> WithIcon(old(genes)[j], gfx) == Ok(genes[j])
        invariant forall j :: i <= j < |genes| ==> genes[j] == old(genes)[j]
        invariant abstractDefs == old(abstractDefs) && graphicsSearch == old(graphicsSearch)
      {
        var next := RewriteIcon(genes[i], gfx);
        if next.Err? {
          WithIconsFails(old(genes), gfx);
          assert WithIcon(old(genes)[i], gfx).Err?;
          return Err(next.fault);
        }
        genes := genes[i := next.value];
      }
      WithIconsAll(old(genes), gfx, genes);
      return Ok(());
    }

    /**
     * Pack the icons found in the graphics library into one atlas of 128 by 128 tiles, then
     * point every gene's icon path at its tile. `order` is the order in which the search
     * set is listed.
     */
    method BuildAtlas(library: map<string, Graphics.Size>, order: seq<string>)
      returns (r: Result<()>, atlas: Record, canvas: Graphics.Size)
      requires Valid()
      requires forall p :: p in order <==> p in graphicsSearch
      modifies this
      ensures r.Ok? ==> Keys(atlas) == Keys(Graphics.Found(order, library))
      ensures r.Ok? ==> WithIcons(old(genes), atlas).Ok? && genes == WithIcons(old(genes), atlas).value
      ensures (forall p :: p in graphicsSearch ==> p in library && library[p] == Graphics.Size(128, 128)) ==> r.Ok?
    {
      var loaded;
      loaded, canvas := Graphics.LoadGraphics(library, Graphics.Size(128, 128), order);
      if loaded.Err? {
        atlas := [];
        Graphics.FoundEntries(order, library);
        return Err(loaded.fault), atlas, canvas;
      }
      atlas := loaded.value;
      IconsResolved(genes, atlas);
      r := RewriteIcons(atlas);
    }
  }

  /** A file that fails makes every longer run of files fail. */
  lemma {:induction false} ReadAllPrefix(reg: map<string, Node>, roots: seq<Node>, k: nat)
    requires k <= |roots| && ReadAllSpec(reg, roots[..k]).Err?
    ensures ReadAllSpec(reg, roots).Err?
    decreases |roots|
  {
    if k < |roots| {
      var init := roots[..|roots| - 1];
      assert init[..k] == roots[..k];
      ReadAllPrefix(reg, init, k);
    } else {
      assert roots[..k] == roots;
    }
  }
}
