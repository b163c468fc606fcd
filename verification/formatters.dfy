/**
 * The page's text helpers (`docs/formatters.js`): a counter kept as a decimal string, the
 * comma-list form of tag lists, signed numbers, and the tooltips built line by line from a
 * gene, a backstory or a trait degree.
 *
 * A JavaScript object iterated with `for..in` is a sequence of (key, value) pairs in
 * iteration order; numbers are integers.
 */
module Formatters {
  import opened Wrappers
  import opened Text
  import Defs

  // ---------------------------------------------------------------- addStrInt

  /** `addStrInt(text, num)`: read the text as an integer, add, write it back; "NaN" if unreadable. */
  function AddStrInt(text: string, num: int): (r: string)
    ensures |r| >= 1
  {
    JsParseInt(text, 0).Plus(num).Show()
  }

  /** On a counter written by `toString`, adding shifts the value it holds. */
  lemma AddStrIntShift(n: int, num: int)
    ensures AddStrInt(ShowInt(n), num) == ShowInt(n + num)
    ensures JsParseInt(AddStrInt(ShowInt(n), num), 0) == Num(n + num)
  {
    JsParseShowInt(n);
    JsParseShowInt(n + num);
  }

  /** Adding `num` and then `-num` gives back the counter. */
  lemma AddStrIntInverse(n: int, num: int)
    ensures AddStrInt(AddStrInt(ShowInt(n), num), -num) == ShowInt(n)
  {
    AddStrIntShift(n, num);
    AddStrIntShift(n + num, -num);
  }

  /** A counter that no longer reads as a number stays "NaN" whatever is added. */
  lemma AddStrIntNaN(num: int)
    ensures AddStrInt("NaN", num) == "NaN"
  {
    var s := "NaN";
    assert !IsJsSpace(s[0]);
    assert DropLeading(s, IsJsSpace) == s;
    assert !IsDigit(s[0], 10);
    assert DigitRun(s, 10) == 0;
  }

  // ---------------------------------------------------------------- parseCommaList

  function TrimAll(xs: seq<string>): (r: seq<string>)
    ensures |r| == |xs| && forall i :: 0 <= i < |xs| ==> r[i] == Trim(xs[i])
  {
    seq(|xs|, i requires 0 <= i < |xs| => Trim(xs[i]))
  }

  /** A tag as the comma form keeps it: non-empty, no comma, no space at either end. */
  predicate CleanItem(x: string) {
    x != "" && ',' !in x && !IsJsSpace(x[0]) && !IsJsSpace(x[|x| - 1])
  }

  /** `parseCommaList(text)`: split at commas, trim each piece, drop the empty ones. */
  function ParseCommaList(text: string): (r: seq<string>)
    ensures forall x :: x in r ==> CleanItem(x)
  {
    var parts := Split(text, ',');
    TrimmedItems(parts);
    Defs.NonEmpty(TrimAll(parts))
  }

  lemma TrimmedItems(parts: seq<string>)
    requires forall i :: 0 <= i < |parts| ==> ',' !in parts[i]
    ensures forall x :: x in Defs.NonEmpty(TrimAll(parts)) ==> CleanItem(x)
  {
    var trimmed := TrimAll(parts);
    forall x | x in Defs.NonEmpty(trimmed)
      ensures CleanItem(x)
    {
      assert x in trimmed && x != "";
      var i :| 0 <= i < |parts| && trimmed[i] == x;
      TrimInside(parts[i]);
    }
  }

  lemma TrimInside(s: string)
    ensures forall c :: c in Trim(s) ==> c in s
  {
    var t := DropLeading(s, IsJsSpace);
    assert forall c :: c in t ==> c in s;
  }

  /**
   * Writing a tag list with `join(",")` and reading it back with `parseCommaList` gives the
   * list again, the empty list included, as long as every tag is clean.
   */
  lemma ParseCommaListJoin(items: seq<string>)
    requires forall i :: 0 <= i < |items| ==> CleanItem(items[i])
    ensures ParseCommaList(Join(items, ',')) == items
  {
    if |items| == 0 {
      assert Join(items, ',') == "";
      ParseCommaListEmpty();
    } else {
      ParseCommaListJoinSome(items);
    }
  }

  lemma ParseCommaListJoinSome(items: seq<string>)
    requires |items| >= 1
    requires forall i :: 0 <= i < |items| ==> CleanItem(items[i])
    ensures ParseCommaList(Join(items, ',')) == items
  {
    var s := Join(items, ',');
    forall i | 0 <= i < |items| ensures ',' !in items[i] && items[i] != "" {
      assert CleanItem(items[i]);
    }
    JoinSplit(items, ',');
    TrimAllClean(items);
    Defs.NonEmptyAll(items);
    ParseCommaListOf(s, items);
  }

  lemma ParseCommaListOf(s: string, items: seq<string>)
    requires Split(s, ',') == items && TrimAll(items) == items && Defs.NonEmpty(items) == items
    ensures ParseCommaList(s) == items
  {
  }

  /** An empty attribute is an empty list. */
  lemma ParseCommaListEmpty()
    ensures ParseCommaList("") == []
  {
    assert Split("", ',') == [""];
    assert TrimAll([""]) == [""];
    assert Defs.NonEmpty([""]) == [];
  }

  lemma TrimAllClean(items: seq<string>)
    requires forall i :: 0 <= i < |items| ==> CleanItem(items[i])
    ensures TrimAll(items) == items
  {
    forall i | 0 <= i < |items| ensures Trim(items[i]) == items[i] {
      TrimTrimmed(items[i]);
    }
  }

  /** The pieces are kept in order: the result is the trimmed pieces with the empty ones left out. */
  lemma {:induction false} ParseCommaListOrder(text: string, i: nat)
    requires i < |Split(text, ',')| && Trim(Split(text, ',')[i]) != ""
    ensures Trim(Split(text, ',')[i]) in ParseCommaList(text)
  {
    var trimmed := TrimAll(Split(text, ','));
    assert trimmed[i] in trimmed;
  }

  // ---------------------------------------------------------------- formatNumberSigned

  /** `formatNumberSigned(num)`: a "+" in front of a number that is not negative. */
  function FormatNumberSigned(num: int): (r: string)
    ensures |r| >= 1 && (r[0] == '+' <==> num >= 0)
  {
    ShowIntChars(num);
    (if num < 0 then "" else "+") + ShowInt(num)
  }

  /** The signed form reads back as the number. */
  lemma FormatNumberSignedParse(num: int)
    ensures JsParseInt(FormatNumberSigned(num), 10) == Num(num)
  {
    if num < 0 {
      assert FormatNumberSigned(num) == ShowInt(num);
      JsParseShowInt(num);
    } else {
      var d := ShowNat(num, 10);
      assert FormatNumberSigned(num) == "+" + d;
      ShowNatDecimal(num);
      JsParseUnsignedDecimal(d, 10);
      JsParsePlus(d, 10);
    }
  }

  /** The signed form is a sign and digits: it holds no line break. */
  lemma FormatNumberSignedChars(num: int)
    ensures '\n' !in FormatNumberSigned(num)
  {
    var r := FormatNumberSigned(num);
    var p := if num < 0 then "" else "+";
    ShowIntChars(num);
    assert r == p + ShowInt(num);
    forall k | 0 <= k < |r| ensures r[k] != '\n' {
      if k >= |p| {
        assert r[k] == ShowInt(num)[k - |p|];
      }
    }
  }

  // ---------------------------------------------------------------- the line builders

  /** Each item on a line of its own, every line introduced by a newline: "\na\nb". */
  function Lines(items: seq<string>): string
    decreases |items|
  {
    if |items| == 0 then "" else Lines(items[..|items| - 1]) + "\n" + items[|items| - 1]
  }

  lemma {:induction false} LinesJoin(items: seq<string>)
    ensures Lines(items) == Join([""] + items, '\n')
    decreases |items|
  {
    if |items| > 0 {
      var init := items[..|items| - 1];
      LinesJoin(init);
      JoinSnoc([""] + init, items[|items| - 1], '\n');
      assert [""] + init + [items[|items| - 1]] == [""] + items;
    }
  }

  /** The text splits back into an empty first line and one line per item, in order. */
  lemma LinesSplit(items: seq<string>)
    requires forall i :: 0 <= i < |items| ==> '\n' !in items[i]
    ensures Split(Lines(items), '\n') == [""] + items
  {
    var parts := [""] + items;
    forall i | 0 <= i < |parts| ensures '\n' !in parts[i] {
      if i > 0 {
        assert parts[i] == items[i - 1];
      }
    }
    LinesJoin(items);
    JoinSplit(parts, '\n');
  }

  /** A section added under a text: its lines come after the text's own lines and one empty line. */
  lemma SectionSplit(text: string, items: seq<string>)
    requires forall i :: 0 <= i < |items| ==> '\n' !in items[i]
    ensures Split(text + "\n" + Lines(items), '\n') == Split(text, '\n') + [""] + items
  {
    SplitAppend(text, Lines(items), '\n');
    LinesSplit(items);
  }

  lemma {:induction false} LinesAppend(a: seq<string>, b: seq<string>)
    ensures Lines(a) + Lines(b) == Lines(a + b)
    decreases |b|
  {
    if |b| > 0 {
      var init := b[..|b| - 1];
      LinesAppend(a, init);
      assert (a + b)[..|a + b| - 1] == a + init;
    } else {
      assert a + b == a;
    }
  }

  /** An object mapping names to integers, in iteration order. */
  type NumberMap = seq<(string, int)>

  /** "Shooting: +3" */
  function SkillEntry(e: (string, int)): string {
    e.0 + ": " + FormatNumberSigned(e.1)
  }

  function SkillEntries(skills: NumberMap): (r: seq<string>)
    ensures |r| == |skills| && forall i :: 0 <= i < |skills| ==> r[i] == SkillEntry(skills[i])
  {
    seq(|skills|, i requires 0 <= i < |skills| => SkillEntry(skills[i]))
  }

  /** No entry line breaks when no name does. */
  lemma SkillEntriesOneLine(skills: NumberMap)
    requires forall i :: 0 <= i < |skills| ==> '\n' !in skills[i].0
    ensures forall i :: 0 <= i < |skills| ==> '\n' !in SkillEntries(skills)[i]
  {
    forall i | 0 <= i < |skills| ensures '\n' !in SkillEntry(skills[i]) {
      var (k, v) := skills[i];
      FormatNumberSignedChars(v);
      assert SkillEntry(skills[i]) == k + ": " + FormatNumberSigned(v);
    }
  }

  /** `skillsDesc(skills)`: one line "name: +n" per skill. */
  method SkillsDesc(skills: NumberMap) returns (out: string)
    ensures out == Lines(SkillEntries(skills))
  {
    var entries := SkillEntries(skills);
    out := "";
    for i := 0 to |skills|
      invariant out == Lines(entries[..i])
    {
      assert entries[..i + 1][..i] == entries[..i];
      out := out + "\n" + SkillEntry(skills[i]);
    }
    assert entries[..|skills|] == entries;
  }

  function DisabledEntries(work: seq<string>): (r: seq<string>)
    ensures |r| == |work| && forall i :: 0 <= i < |work| ==> r[i] == work[i] + " disabled"
  {
    seq(|work|, i requires 0 <= i < |work| => work[i] + " disabled")
  }

  /** `disabledWorkDesc(work)`: one line "X disabled" per work type. */
  method DisabledWorkDesc(work: seq<string>) returns (out: string)
    ensures out == Lines(DisabledEntries(work))
  {
    var entries := DisabledEntries(work);
    out := "";
    for i := 0 to |work|
      invariant out == Lines(entries[..i])
    {
      assert entries[..i + 1][..i] == entries[..i];
      out := out + "\n" + work[i] + " disabled";
    }
    assert entries[..|work|] == entries;
  }

  lemma DisabledEntriesOneLine(work: seq<string>)
    requires OneLine(work)
    ensures OneLine(DisabledEntries(work))
  {
    forall i | 0 <= i < |work| ensures '\n' !in DisabledEntries(work)[i] {
      assert DisabledEntries(work)[i] == work[i] + " disabled";
    }
  }

  const MeditationHeader := "Enables meditation focus types:"

  /** One entry per item, each the item after `prefix`: "- X" for meditation types, "Forced trait: X" for traits. */
  function Prefixed(prefix: string, items: seq<string>): (r: seq<string>)
    ensures |r| == |items| && forall i :: 0 <= i < |items| ==> r[i] == prefix + items[i]
  {
    seq(|items|, i requires 0 <= i < |items| => prefix + items[i])
  }

  /** No entry breaks a line when neither the prefix nor any item does. */
  lemma PrefixedOneLine(prefix: string, items: seq<string>)
    requires '\n' !in prefix && OneLine(items)
    ensures OneLine(Prefixed(prefix, items))
  {
    forall i | 0 <= i < |items| ensures '\n' !in Prefixed(prefix, items)[i] {
      assert Prefixed(prefix, items)[i] == prefix + items[i];
    }
  }

  /** `meditationTypesDesc(types)`: the header line, even for no types, then "- X" per type. */
  method MeditationTypesDesc(types: seq<string>) returns (out: string)
    ensures out == Lines(MeditationLines(types))
  {
    var entries := MeditationLines(types);
    out := "\n" + MeditationHeader;
    assert out == Lines(entries[..1]) by {
      assert entries[..1][..0] == [];
    }
    for i := 0 to |types|
      invariant out == Lines(entries[..i + 1])
    {
      assert entries[..i + 2][..i + 1] == entries[..i + 1];
      out := out + "\n- " + types[i];
    }
    assert entries[..|types| + 1] == entries;
  }

  lemma MeditationOneLine(types: seq<string>)
    requires OneLine(types)
    ensures OneLine(MeditationLines(types))
  {
    var entries := MeditationLines(types);
    forall i | 0 <= i < |entries| ensures '\n' !in entries[i] {
      if i > 0 {
        assert entries[i] == "- " + types[i - 1];
      }
    }
  }

  /** The meditation text always opens with its header line, even for no types. */
  lemma MeditationHeaderFirst(types: seq<string>)
    requires OneLine(types)
    ensures Split(Lines(MeditationLines(types)), '\n') == ["", MeditationHeader] + Prefixed("- ", types)
  {
    MeditationOneLine(types);
    LinesSplit(MeditationLines(types));
  }

  // ---------------------------------------------------------------- descriptions

  /** `a || ""` for an optional text. */
  function TextOr(t: Option<string>): string {
    t.GetOr("")
  }

  /** Names and work types that hold no line break. */
  predicate OneLine(xs: seq<string>) {
    forall i :: 0 <= i < |xs| ==> '\n' !in xs[i]
  }

  /** `if (present) desc += "\n" + <the items' lines>` */
  function Section(text: string, present: bool, items: seq<string>): string {
    if present then text + "\n" + Lines(items) else text
  }

  /** A section adds an empty line and its items' lines after the text's own lines. */
  lemma SectionLines(text: string, present: bool, items: seq<string>)
    requires OneLine(items)
    ensures Split(Section(text, present, items), '\n') == Split(text, '\n') + (if present then [""] + items else [])
  {
    if present {
      SectionSplit(text, items);
    } else {
      assert Split(text, '\n') + [] == Split(text, '\n');
    }
  }

  /** A section only adds after the text. */
  lemma SectionExtends(text: string, present: bool, items: seq<string>)
    ensures StartsWith(Section(text, present, items), text)
  {
    var r := Section(text, present, items);
    assert r[..|text|] == text;
  }

  predicate OneLineKeys(m: NumberMap) {
    forall i :: 0 <= i < |m| ==> '\n' !in m[i].0
  }

  lemma SkillEntriesLines(skills: NumberMap)
    requires OneLineKeys(skills)
    ensures OneLine(SkillEntries(skills))
  {
    SkillEntriesOneLine(skills);
  }

  /** `requiredTraitDesc(traits)`: one "Forced trait: label" line per required trait. */
  function ForcedEntries(labels: seq<string>): seq<string> {
    Prefixed("Forced trait: ", labels)
  }

  /**
   * What a gene tooltip is built from. The lines of the stat maps are taken as written (their
   * numbers are fractions), and so are the labels of forced traits (they come from the traits
   * table).
   */
  datatype GeneText = GeneText(
    desc: Option<string>,
    skills: Option<NumberMap>,
    statOffsets: Option<seq<string>>,
    statFactors: Option<seq<string>>,
    damageFactors: Option<seq<string>>,
    traitLabels: Option<seq<string>>,
    disabledWork: Option<seq<string>>)

  function StatLines(g: GeneText): seq<string> {
    g.statOffsets.GetOr([]) + g.statFactors.GetOr([]) + g.damageFactors.GetOr([])
  }

  predicate HasStats(g: GeneText) {
    g.statOffsets.Some? || g.statFactors.Some? || g.damageFactors.Some?
  }

  /**
   * The tooltip `buildGeneDescription` builds: each present part as a section, in order. It
   * starts with the gene's own text, or with nothing when it has none.
   */
  function GeneDescription(g: GeneText): (r: string)
    ensures StartsWith(r, TextOr(g.desc))
  {
    var desc := TextOr(g.desc);
    var d1 := Section(desc, g.skills.Some?, SkillEntries(g.skills.GetOr([])));
    var d2 := Section(d1, HasStats(g), StatLines(g));
    var d3 := Section(d2, g.traitLabels.Some?, ForcedEntries(g.traitLabels.GetOr([])));
    SectionExtends(desc, g.skills.Some?, SkillEntries(g.skills.GetOr([])));
    SectionOnSection(desc, d1, HasStats(g), StatLines(g));
    SectionOnSection(desc, d2, g.traitLabels.Some?, ForcedEntries(g.traitLabels.GetOr([])));
    SectionOnSection(desc, d3, g.disabledWork.Some?, DisabledEntries(g.disabledWork.GetOr([])));
    Section(d3, g.disabledWork.Some?, DisabledEntries(g.disabledWork.GetOr([])))
  }

  /** A section added under a text that starts with `base` still starts with it. */
  lemma SectionOnSection(base: string, text: string, present: bool, items: seq<string>)
    requires StartsWith(text, base)
    ensures StartsWith(Section(text, present, items), base)
  {
    SectionExtends(text, present, items);
    StartsWithTrans(Section(text, present, items), text, base);
  }

  /** `buildGeneDescription(gene)`, one part after the other. */
  method BuildGeneDescription(g: GeneText) returns (desc: string)
    ensures desc == GeneDescription(g)
  {
    desc := TextOr(g.desc);
    if g.skills.Some? {
      var s := SkillsDesc(g.skills.value);
      desc := desc + "\n" + s;
    }
    ghost var d1 := desc;
    assert d1 == Section(TextOr(g.desc), g.skills.Some?, SkillEntries(g.skills.GetOr([])));
    if HasStats(g) {
      desc := desc + "\n";
    }
    ghost var head := desc;
    if g.statOffsets.Some? {
      desc := desc + Lines(g.statOffsets.value);
    }
    assert desc == head + Lines(g.statOffsets.GetOr([]));
    if g.statFactors.Some? {
      desc := desc + Lines(g.statFactors.value);
    }
    assert desc == head + Lines(g.statOffsets.GetOr([])) + Lines(g.statFactors.GetOr([]));
    if g.damageFactors.Some? {
      desc := desc + Lines(g.damageFactors.value);
    }
    assert desc == head + Lines(g.statOffsets.GetOr([])) + Lines(g.statFactors.GetOr([])) + Lines(g.damageFactors.GetOr([]));
    StatsText(g, d1);
    ghost var d2 := desc;
    assert d2 == Section(d1, HasStats(g), StatLines(g));
    if g.traitLabels.Some? {
      desc := desc + "\n" + Lines(ForcedEntries(g.traitLabels.value));
    }
    ghost var d3 := desc;
    assert d3 == Section(d2, g.traitLabels.Some?, ForcedEntries(g.traitLabels.GetOr([])));
    if g.disabledWork.Some? {
      var w := DisabledWorkDesc(g.disabledWork.value);
      desc := desc + "\n" + w;
    }
  }

  /** The three stat maps one after the other are one section of all their lines. */
  lemma StatsText(g: GeneText, d: string)
    ensures Section(d, HasStats(g), StatLines(g)) ==
      (if HasStats(g) then d + "\n" else d) + Lines(g.statOffsets.GetOr([])) + Lines(g.statFactors.GetOr([])) + Lines(g.damageFactors.GetOr([]))
  {
    var o, f, m := g.statOffsets.GetOr([]), g.statFactors.GetOr([]), g.damageFactors.GetOr([]);
    LinesAppend(o, f);
    LinesAppend(o + f, m);
    if !HasStats(g) {
      assert o == [] && f == [] && m == [];
      assert Lines([]) == "";
    }
  }

  /**
   * The lines of a gene tooltip: its own lines, then for each present part an empty line and
   * that part's lines (skills, the stat lines together, forced traits, disabled work).
   */
  lemma GeneLines(g: GeneText)
    requires OneLineKeys(g.skills.GetOr([]))
    requires OneLine(StatLines(g))
    requires OneLine(g.traitLabels.GetOr([]))
    requires OneLine(g.disabledWork.GetOr([]))
    ensures Split(GeneDescription(g), '\n') ==
      Split(TextOr(g.desc), '\n')
      + (if g.skills.Some? then [""] + SkillEntries(g.skills.value) else [])
      + (if HasStats(g) then [""] + StatLines(g) else [])
      + (if g.traitLabels.Some? then [""] + ForcedEntries(g.traitLabels.value) else [])
      + (if g.disabledWork.Some? then [""] + DisabledEntries(g.disabledWork.value) else [])
  {
    var d1 := Section(TextOr(g.desc), g.skills.Some?, SkillEntries(g.skills.GetOr([])));
    var d2 := Section(d1, HasStats(g), StatLines(g));
    var d3 := Section(d2, g.traitLabels.Some?, ForcedEntries(g.traitLabels.GetOr([])));
    SkillEntriesLines(g.skills.GetOr([]));
    SectionLines(TextOr(g.desc), g.skills.Some?, SkillEntries(g.skills.GetOr([])));
    SectionLines(d1, HasStats(g), StatLines(g));
    PrefixedOneLine("Forced trait: ", g.traitLabels.GetOr([]));
    SectionLines(d2, g.traitLabels.Some?, ForcedEntries(g.traitLabels.GetOr([])));
    DisabledEntriesOneLine(g.disabledWork.GetOr([]));
    SectionLines(d3, g.disabledWork.Some?, DisabledEntries(g.disabledWork.GetOr([])));
  }

  /** What a backstory tooltip is built from; `skills` is an object, `disabledWork` an array. */
  datatype BackstoryText = BackstoryText(desc: Option<string>, skills: Option<NumberMap>, disabledWork: Option<seq<string>>)

  /**
   * `skills.length` of a skills object: the export writes skills as a dict, which has no
   * `length`, so the value is undefined, and NaN once compared with a number.
   */
  function ObjectLength(skills: NumberMap): JsNum {
    NaN
  }

  /** `x !== undefined && x.length > 0` on an array. */
  predicate Filled<T>(xs: Option<seq<T>>) {
    xs.Some? && |xs.value| > 0
  }

  /**
   * `buildBackstoryDescription` as written: `skills.length` of an object is undefined, and
   * `undefined > 0` is false, so the skills section is never added. Whatever the skills, it
   * is the intended description of the same backstory without them.
   */
  function BackstoryDescriptionAsWritten(b: BackstoryText): (r: string)
    ensures r == BackstoryDescription(b.(skills := None))
  {
    Section(TextOr(b.desc), Filled(b.disabledWork), DisabledEntries(b.disabledWork.GetOr([])))
  }

  /**
   * The intended description: the skills section whenever the object has an entry. It starts
   * with the backstory's own text, or with nothing when it has none.
   */
  function BackstoryDescription(b: BackstoryText): (r: string)
    ensures StartsWith(r, TextOr(b.desc))
  {
    var d1 := Section(TextOr(b.desc), Filled(b.skills), SkillEntries(b.skills.GetOr([])));
    SectionExtends(TextOr(b.desc), Filled(b.skills), SkillEntries(b.skills.GetOr([])));
    SectionOnSection(TextOr(b.desc), d1, Filled(b.disabledWork), DisabledEntries(b.disabledWork.GetOr([])));
    Section(d1, Filled(b.disabledWork), DisabledEntries(b.disabledWork.GetOr([])))
  }

  /** A backstory with a skill and nothing else shows only its text as written. */
  lemma BackstorySkillsDropped()
    ensures var b := BackstoryText(Some("d"), Some([("Shooting", 3)]), Some([]));
      BackstoryDescriptionAsWritten(b) == "d" && BackstoryDescription(b) == "d\n\nShooting: +3"
  {
    SkillOnlyAsWritten();
    SkillOnlyIntended();
  }

  lemma SkillOnlyAsWritten()
    ensures BackstoryDescriptionAsWritten(BackstoryText(Some("d"), Some([("Shooting", 3)]), Some([]))) == "d"
  {
    var b := BackstoryText(Some("d"), Some([("Shooting", 3)]), Some([]));
    assert !Filled(b.disabledWork);
  }

  lemma SkillOnlyIntended()
    ensures BackstoryDescription(BackstoryText(Some("d"), Some([("Shooting", 3)]), Some([]))) == "d\n\nShooting: +3"
  {
    var b := BackstoryText(Some("d"), Some([("Shooting", 3)]), Some([]));
    OneSkillLine("Shooting", 3, "3");
    var d1 := Section("d", true, SkillEntries([("Shooting", 3)]));
    assert d1 == "d" + "\n" + ("\n" + "Shooting" + ": +" + "3");
    assert d1 == "d\n\nShooting: +3";
    assert !Filled(b.disabledWork);
  }

  /** The tooltip section of one skill. */
  lemma OneSkillLine(name: string, n: nat, digits: string)
    requires n < 10 && digits == [('0' as int + n) as char]
    ensures Lines(SkillEntries([(name, n)])) == "\n" + name + ": +" + digits
  {
    assert ShowNat(n, 10) == digits;
    assert FormatNumberSigned(n) == "+" + digits;
    var line := name + ": +" + digits;
    assert SkillEntry((name, n)) == name + ": " + ("+" + digits);
    assert name + ": " + ("+" + digits) == line;
    var es := SkillEntries([(name, n)]);
    assert |es| == 1 && es[0] == line;
    assert es[..0] == [];
    assert Lines(es) == Lines([]) + "\n" + line;
  }

  /**
   * `buildBackstoryDescription(backstory)`: the skills test compares the object's undefined
   * `length` with 0, so the skills section is never added.
   */
  method BuildBackstoryDescription(b: BackstoryText) returns (desc: string)
    ensures desc == BackstoryDescriptionAsWritten(b)
  {
    desc := TextOr(b.desc);
    if b.skills.Some? {
      var skills := b.skills.value;
      if Num(0).Below(ObjectLength(skills)) {
        var s := SkillsDesc(skills);
        desc := desc + "\n" + s;
      }
    }
    if b.disabledWork.Some? && |b.disabledWork.value| > 0 {
      var w := DisabledWorkDesc(b.disabledWork.value);
      desc := desc + "\n" + w;
    }
  }

  function SkillSection(skills: Option<NumberMap>): seq<string> {
    if Filled(skills) then [""] + SkillEntries(skills.value) else []
  }

  function WorkSection(work: Option<seq<string>>): seq<string> {
    if Filled(work) then [""] + DisabledEntries(work.value) else []
  }

  /**
   * The lines of a backstory tooltip: the description's own lines, then an empty line and one
   * line per skill, then an empty line and one line per disabled work type; a section with
   * nothing in it is left out.
   */
  lemma BackstoryLines(b: BackstoryText)
    requires OneLineKeys(b.skills.GetOr([]))
    requires OneLine(b.disabledWork.GetOr([]))
    ensures Split(BackstoryDescription(b), '\n') == Split(TextOr(b.desc), '\n') + SkillSection(b.skills) + WorkSection(b.disabledWork)
  {
    var d1 := Section(TextOr(b.desc), Filled(b.skills), SkillEntries(b.skills.GetOr([])));
    SkillEntriesLines(b.skills.GetOr([]));
    SectionLines(TextOr(b.desc), Filled(b.skills), SkillEntries(b.skills.GetOr([])));
    DisabledEntriesOneLine(b.disabledWork.GetOr([]));
    SectionLines(d1, Filled(b.disabledWork), DisabledEntries(b.disabledWork.GetOr([])));
  }

  lemma StartsWithTrans(a: string, b: string, c: string)
    requires StartsWith(a, b) && StartsWith(b, c)
    ensures StartsWith(a, c)
  {
    assert a[..|c|] == a[..|b|][..|c|];
  }

  /** What a trait degree tooltip is built from: the degree's fields; the trait's disabled work comes apart. */
  datatype DegreeText = DegreeText(desc: Option<string>, skills: Option<NumberMap>, meditationTypes: Option<seq<string>>)

  function MeditationLines(types: seq<string>): seq<string> {
    [MeditationHeader] + Prefixed("- ", types)
  }

  /**
   * `buildTraitDegreeDescription` as written: the degree's skills object is never shown
   * either. Whatever the skills, it is the intended description of the degree without them.
   */
  function DegreeDescriptionAsWritten(d: DegreeText, traitWork: Option<seq<string>>): (r: string)
    ensures r == DegreeDescription(d.(skills := None), traitWork)
  {
    var d2 := Section(TextOr(d.desc), Filled(d.meditationTypes), MeditationLines(d.meditationTypes.GetOr([])));
    Section(d2, Filled(traitWork), DisabledEntries(traitWork.GetOr([])))
  }

  /**
   * The intended degree description. It starts with the degree's own text, or with nothing
   * when it has none.
   */
  function DegreeDescription(d: DegreeText, traitWork: Option<seq<string>>): (r: string)
    ensures StartsWith(r, TextOr(d.desc))
  {
    var desc := TextOr(d.desc);
    var d1 := Section(desc, Filled(d.skills), SkillEntries(d.skills.GetOr([])));
    var d2 := Section(d1, Filled(d.meditationTypes), MeditationLines(d.meditationTypes.GetOr([])));
    SectionExtends(desc, Filled(d.skills), SkillEntries(d.skills.GetOr([])));
    SectionOnSection(desc, d1, Filled(d.meditationTypes), MeditationLines(d.meditationTypes.GetOr([])));
    SectionOnSection(desc, d2, Filled(traitWork), DisabledEntries(traitWork.GetOr([])));
    Section(d2, Filled(traitWork), DisabledEntries(traitWork.GetOr([])))
  }

  /** A degree whose only extra is a skill gain shows only its text as written. */
  lemma DegreeSkillsDropped()
    ensures var d := DegreeText(Some("d"), Some([("Social", 2)]), None);
      DegreeDescriptionAsWritten(d, None) == "d" && DegreeDescription(d, None) == "d\n\nSocial: +2"
  {
    OneSkillLine("Social", 2, "2");
  }

  /**
   * `buildTraitDegreeDescription(trait, degree)`: the skills test compares the object's
   * undefined `length` with 0, so the skills section is never added.
   */
  method BuildTraitDegreeDescription(d: DegreeText, traitWork: Option<seq<string>>) returns (desc: string)
    ensures desc == DegreeDescriptionAsWritten(d, traitWork)
  {
    desc := TextOr(d.desc);
    if d.skills.Some? {
      var skills := d.skills.value;
      if Num(0).Below(ObjectLength(skills)) {
        var s := SkillsDesc(skills);
        desc := desc + "\n" + s;
      }
    }
    if d.meditationTypes.Some? && |d.meditationTypes.value| > 0 {
      var m := MeditationTypesDesc(d.meditationTypes.value);
      desc := desc + "\n" + m;
    }
    if traitWork.Some? && |traitWork.value| > 0 {
      var w := DisabledWorkDesc(traitWork.value);
      desc := desc + "\n" + w;
    }
  }

  function MeditationSection(types: Option<seq<string>>): seq<string> {
    if Filled(types) then [""] + MeditationLines(types.value) else []
  }

  /**
   * The lines of a degree tooltip: its own lines, the skills, then an empty line, the
   * meditation header and one "- X" line per type, then the trait's disabled work.
   */
  lemma DegreeLines(d: DegreeText, traitWork: Option<seq<string>>)
    requires OneLineKeys(d.skills.GetOr([]))
    requires OneLine(d.meditationTypes.GetOr([]))
    requires OneLine(traitWork.GetOr([]))
    ensures Split(DegreeDescription(d, traitWork), '\n') ==
      Split(TextOr(d.desc), '\n') + SkillSection(d.skills) + MeditationSection(d.meditationTypes) + WorkSection(traitWork)
  {
    var d1 := Section(TextOr(d.desc), Filled(d.skills), SkillEntries(d.skills.GetOr([])));
    var d2 := Section(d1, Filled(d.meditationTypes), MeditationLines(d.meditationTypes.GetOr([])));
    SkillEntriesLines(d.skills.GetOr([]));
    SectionLines(TextOr(d.desc), Filled(d.skills), SkillEntries(d.skills.GetOr([])));
    MeditationOneLine(d.meditationTypes.GetOr([]));
    SectionLines(d1, Filled(d.meditationTypes), MeditationLines(d.meditationTypes.GetOr([])));
    DisabledEntriesOneLine(traitWork.GetOr([]));
    SectionLines(d2, Filled(traitWork), DisabledEntries(traitWork.GetOr([])));
  }
}
