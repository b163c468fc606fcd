/**
 * `scripts/traits.py`: a `TraitDef` read into a trait with its degrees, and the records the
 * script exports for the page.
 */
module Traits {
  import opened Wrappers
  import opened Text
  import opened Xml
  import opened Records
  import opened Defs

  // ---------------------------------------------------------------- descriptions

  /**
   * The replacements `traitDegree.cleanDescription` makes, in order: the two characters
   * backslash-n become a line break, a double line break becomes one, and the pawn
   * placeholders, in their bracket and then their brace forms, become plain words.
   */
  const Replacements: seq<(string, string)> := [
    ("\\n", "\n"), ("\n\n", "\n"),
    ("[PAWN_nameDef]", "This pawn"), ("[PAWN_pronoun]", "This pawn"),
    ("[PAWN_possessive]", "their"), ("[PAWN_objective]", "them"),
    ("{PAWN_nameDef}", "This pawn"), ("{PAWN_pronoun}", "This pawn"),
    ("{PAWN_possessive}", "their"), ("{PAWN_objective}", "them")]

  /**
   * `traitDegree.cleanDescription`. Every replacement is no longer than its pattern, so the
   * cleaned text is never longer than the raw one.
   */
  function CleanDescription(text: string): (r: string)
    ensures |r| <= |text|
  {
    ReplaceChainShorter(text, Replacements);
    ReplaceChain(text, Replacements)
  }

  /** The chain is the two line-break steps followed by the placeholder steps. */
  lemma CleanSteps(text: string)
    ensures CleanDescription(text)
      == ReplaceChain(Replace(Replace(text, "\\n", "\n"), "\n\n", "\n"), Replacements[2..])
  {
    assert Replacements[1..][0] == ("\n\n", "\n");
    assert Replacements[1..][1..] == Replacements[2..];
  }

  /** No placeholder step changes a text without brackets and braces. */
  lemma PlaceholdersAbsent(s: string)
    requires '[' !in s && '{' !in s
    ensures ReplaceChain(s, Replacements[2..]) == s
  {
    var tokens := Replacements[2..];
    forall i | 0 <= i < |tokens|
      ensures |tokens[i].0| > 0 && !Contains(s, tokens[i].0)
    {
      Lacks(s, tokens[i].0, tokens[i].0[0]);
    }
    ReplaceChainAbsent(s, tokens);
  }

  /** Text with no backslash, no double line break, no bracket and no brace is returned unchanged. */
  lemma CleanPlain(text: string)
    requires '\\' !in text && '[' !in text && '{' !in text && !Contains(text, "\n\n")
    ensures CleanDescription(text) == text
  {
    CleanSteps(text);
    Lacks(text, "\\n", '\\');
    ReplaceAbsent(text, "\\n", "\n");
    ReplaceAbsent(text, "\n\n", "\n");
    PlaceholdersAbsent(text);
  }

  /** Without escapes, brackets or braces, cleaning is the merge of double line breaks alone. */
  lemma CleanBreaksOnly(text: string, merged: string)
    requires '\\' !in text && Replace(text, "\n\n", "\n") == merged && '[' !in merged && '{' !in merged
    ensures CleanDescription(text) == merged
  {
    CleanSteps(text);
    Lacks(text, "\\n", '\\');
    ReplaceAbsent(text, "\\n", "\n");
    PlaceholdersAbsent(merged);
  }

  lemma CleanThreeBreaks()
    ensures CleanDescription("\n\n\n") == "\n\n"
  {
    var three := "\n\n\n";
    assert three[..2] == "\n\n" && three[2..] == "\n";
    CleanBreaksOnly(three, "\n\n");
  }

  lemma CleanTwoBreaks()
    ensures CleanDescription("\n\n") == "\n"
  {
    var two := "\n\n";
    assert two[..2] == "\n\n" && two[2..] == "";
    CleanBreaksOnly(two, "\n");
  }

  /**
   * Cleaning is not idempotent: the double line breaks are merged in one pass that does not
   * overlap, so three line breaks become two, and cleaning again makes them one.
   */
  lemma CleanNotIdempotent()
    ensures CleanDescription("\n\n\n") == "\n\n"
    ensures CleanDescription(CleanDescription("\n\n\n")) == "\n"
  {
    CleanThreeBreaks();
    CleanTwoBreaks();
  }

  /** The escape is expanded before the breaks are merged: two escaped breaks become one break. */
  lemma CleanEscapesFirst()
    ensures CleanDescription("\\n\\n") == "\n"
  {
    CleanSteps("\\n\\n");
    EscapedBreaks();
    MergedBreaks();
    PlaceholdersAbsent("\n");
  }

  lemma EscapedBreaks()
    ensures Replace("\\n\\n", "\\n", "\n") == "\n\n"
  {
    var text := "\\n\\n";
    assert text[..2] == "\\n" && text[2..] == "\\n";
    assert text[2..][..2] == "\\n" && text[2..][2..] == "";
  }

  lemma MergedBreaks()
    ensures Replace("\n\n", "\n\n", "\n") == "\n"
  {
    var two := "\n\n";
    assert two[..2] == "\n\n" && two[2..] == "";
  }

  /** The brace form of a placeholder is replaced too. */
  lemma CleanBraces()
    ensures CleanDescription("{PAWN_possessive}") == "their"
  {
    var text := "{PAWN_possessive}";
    CleanSteps(text);
    PossessiveLineSteps();
    assert '[' !in text by { PossessiveNoBracket(); }
    SkipBrackets(text);
    BracePossessive();
  }

  /** The line-break steps leave the possessive placeholder alone. */
  lemma PossessiveLineSteps()
    ensures Replace(Replace("{PAWN_possessive}", "\\n", "\n"), "\n\n", "\n") == "{PAWN_possessive}"
  {
    var text := "{PAWN_possessive}";
    assert '\\' !in text && '\n' !in text;
    Lacks(text, "\\n", '\\');
    ReplaceAbsent(text, "\\n", "\n");
    Lacks(text, "\n\n", '\n');
    ReplaceAbsent(text, "\n\n", "\n");
  }

  lemma PossessiveNoBracket()
    ensures '[' !in "{PAWN_possessive}"
  {
    var text := "{PAWN_possessive}";
    forall i | 0 <= i < |text| ensures text[i] != '[' {
    }
  }

  /** The bracket steps leave a text without brackets alone. */
  lemma SkipBrackets(text: string)
    requires '[' !in text
    ensures ReplaceChain(text, Replacements[2..]) == ReplaceChain(text, Replacements[6..])
  {
    var tokens := Replacements[2..];
    assert tokens[..4] + tokens[4..] == tokens;
    assert tokens[4..] == Replacements[6..];
    forall i | 0 <= i < 4
      ensures !Contains(text, tokens[..4][i].0)
    {
      Lacks(text, tokens[i].0, '[');
    }
    ReplaceChainAbsent(text, tokens[..4]);
    ChainAppend(text, tokens[..4], tokens[4..]);
  }

  /** The brace steps on the possessive placeholder. */
  lemma BracePossessive()
    ensures ReplaceChain("{PAWN_possessive}", Replacements[6..]) == "their"
  {
    SkipBraceName();
    SkipBracePronoun();
    PossessiveHit();
    TheirRest();
  }

  lemma SkipBraceName()
    ensures ReplaceChain("{PAWN_possessive}", Replacements[6..])
      == ReplaceChain("{PAWN_possessive}", Replacements[7..])
  {
    var text := "{PAWN_possessive}";
    assert 'D' !in text;
    assert Replacements[6..][1..] == Replacements[7..];
    StepAbsent(text, Replacements[6..], 'D');
  }

  lemma SkipBracePronoun()
    ensures ReplaceChain("{PAWN_possessive}", Replacements[7..])
      == ReplaceChain("{PAWN_possessive}", Replacements[8..])
  {
    var text := "{PAWN_possessive}";
    assert 'r' !in text;
    assert Replacements[7..][1..] == Replacements[8..];
    StepAbsent(text, Replacements[7..], 'r');
  }

  /** The objective step does not apply to the replaced text. */
  lemma TheirRest()
    ensures ReplaceChain("their", Replacements[9..]) == "their"
  {
    assert Replacements[9..][1..] == [];
    StepAbsent("their", Replacements[9..], '{');
  }

  lemma PossessiveHit()
    ensures ReplaceChain("{PAWN_possessive}", Replacements[8..]) == ReplaceChain("their", Replacements[9..])
  {
    var text := "{PAWN_possessive}";
    var pair := Replacements[8];
    assert Replacements[8..][0] == pair && Replacements[8..][1..] == Replacements[9..];
    assert text[..|pair.0|] == pair.0 && text[|pair.0|..] == "";
    assert Replace(text, pair.0, pair.1) == "their";
  }

  /** A step whose pattern has a character the text lacks is skipped. */
  lemma StepAbsent(s: string, pairs: seq<(string, string)>, c: char)
    requires |pairs| > 0 && forall i :: 0 <= i < |pairs| ==> |pairs[i].0| > 0
    requires c in pairs[0].0 && c !in s
    ensures ReplaceChain(s, pairs) == ReplaceChain(s, pairs[1..])
  {
    Lacks(s, pairs[0].0, c);
    ReplaceAbsent(s, pairs[0].0, pairs[0].1);
  }

  /** Running two chains one after the other is running the joined chain. */
  lemma {:induction false} ChainAppend(s: string, a: seq<(string, string)>, b: seq<(string, string)>)
    requires forall i :: 0 <= i < |a| ==> |a[i].0| > 0
    requires forall i :: 0 <= i < |b| ==> |b[i].0| > 0
    ensures forall i :: 0 <= i < |a + b| ==> |(a + b)[i].0| > 0
    ensures ReplaceChain(s, a + b) == ReplaceChain(ReplaceChain(s, a), b)
    decreases |a|
  {
    if |a| > 0 {
      assert (a + b)[0] == a[0] && (a + b)[1..] == a[1..] + b;
      ChainAppend(Replace(s, a[0].0, a[0].1), a[1..], b);
    } else {
      assert a + b == b;
    }
  }

  // ---------------------------------------------------------------- one degree

  /** The fields `traitDegree.__init__` reads from a `<li>` of `degreeDatas`. */
  datatype Degree = Degree(
    labelText: Option<string>, desc: string, degree: int, skillGains: Record,
    statOffsets: Record, statFactors: Record, meditationTypes: seq<Value>,
    hungerRateFactor: Value)

  /**
   * `traitDegree(li)`: a degree without a description fails (`None.replace`), a missing
   * degree number is 0, and every `skillGains` entry needs a key and a value.
   */
  function DegreeOf(li: Node): (r: Result<Degree>)
    ensures FindText(li, "description").None? ==> r == Err(NoneAttribute)
    ensures r.Ok? && FindText(li, "degree").None? ==> r.value.degree == 0
    ensures r.Ok? && FindText(li, "degree").Some? ==> PyInt(FindText(li, "degree").value) == Ok(r.value.degree)
    ensures r.Ok? ==> Unique(r.value.skillGains)
  {
    var desc := FindText(li, "description");
    if desc.None? then Err(NoneAttribute)
    else
      var degree :- IntOr(FindText(li, "degree"), 0);
      var skillGains :- Gather(Items(li, "skillGains"), SkillEntry);
      var statOffsets :- Gather(Under(li, "statOffsets"), FloatEntry);
      var statFactors :- Gather(Under(li, "statFactors"), FloatEntry);
      Ok(Degree(
        FindText(li, "label"), CleanDescription(desc.value), degree, skillGains, statOffsets,
        statFactors, TextValues(Items(li, "allowedMeditationFocusTypes")),
        OptionalReal(FindText(li, "hungerRateFactor"))))
  }

  /** A `skillGains` entry without its key or its value makes the whole degree fail. */
  lemma DegreeNeedsKeyAndValue(li: Node, k: nat)
    requires k < |Items(li, "skillGains")|
    requires FindText(Items(li, "skillGains")[k], "key").None? || FindText(Items(li, "skillGains")[k], "value").None?
    ensures DegreeOf(li).Err?
  {
    GatherFails(Items(li, "skillGains"), SkillEntry);
  }

  /** `traitDegree.__init__`, with its loops over `skillGains`, the stat groups and the meditation types. */
  method InitDegree(li: Node) returns (r: Result<Degree>)
    ensures r == DegreeOf(li)
  {
    var desc := FindText(li, "description");
    if desc.None? {
      return Err(NoneAttribute);
    }
    var degree :- IntOr(FindText(li, "degree"), 0);
    var skillGains :- Collect(Items(li, "skillGains"), SkillEntry);
    var statOffsets :- Collect(Under(li, "statOffsets"), FloatEntry);
    var statFactors :- Collect(Under(li, "statFactors"), FloatEntry);
    var meditationTypes := AppendTexts([], Items(li, "allowedMeditationFocusTypes"));
    return Ok(Degree(
      FindText(li, "label"), CleanDescription(desc.value), degree, skillGains, statOffsets,
      statFactors, meditationTypes, OptionalReal(FindText(li, "hungerRateFactor"))));
  }

  /** The keys of the dict `traitDegree.export` builds, in its order. */
  const DegreeKeys: seq<string> := [
    "label", "desc", "degree", "skills", "statOffsets", "statFactors", "meditationTypes",
    "hungerRateFactor"]

  lemma DegreeKeysDistinct()
    ensures Distinct(DegreeKeys)
  {
  }

  function DegreeValues(d: Degree): (vs: seq<Value>)
    ensures |vs| == |DegreeKeys|
  {
    [TextValue(d.labelText), Str(d.desc), Int(d.degree), Obj(d.skillGains), Obj(d.statOffsets),
     Obj(d.statFactors), List(d.meditationTypes), d.hungerRateFactor]
  }

  /** What `traitDegree.export` returns: the dict without its None, [] and {} values. */
  function DegreeRecord(d: Degree): Record {
    Sparse(Zip(DegreeKeys, DegreeValues(d)))
  }

  /** `traitDegree.export`: build the dict, then pop every key whose value is None, [] or {}. */
  method ExportDegree(d: Degree) returns (r: Record)
    ensures r == DegreeRecord(d)
  {
    DegreeKeysDistinct();
    assert DegreeKeys[0] == "label";
    SweptAt(DegreeKeys, DegreeValues(d), 0);
    r := Sweep(Zip(DegreeKeys, DegreeValues(d)));
  }

  /**
   * The degree number and the description always survive the sweep (a degree of 0
   * included); the label only when there is one, the skills only when there are some.
   */
  lemma DegreeRecordFields(d: Degree)
    ensures Unique(DegreeRecord(d))
    ensures Get(DegreeRecord(d), "degree") == Some(Int(d.degree))
    ensures Get(DegreeRecord(d), "desc") == Some(Str(d.desc))
    ensures Get(DegreeRecord(d), "label") == if d.labelText.Some? then Some(Str(d.labelText.value)) else None
    ensures Get(DegreeRecord(d), "skills") == if d.skillGains == [] then None else Some(Obj(d.skillGains))
  {
    DegreeLabel(d);
    DegreeDesc(d);
    DegreeNumber(d);
    DegreeSkills(d);
  }

  lemma DegreeLabel(d: Degree)
    ensures Unique(DegreeRecord(d))
    ensures Get(DegreeRecord(d), "label") == if d.labelText.Some? then Some(Str(d.labelText.value)) else None
  {
    DegreeKeysDistinct();
    assert DegreeKeys[0] == "label";
    SweptAt(DegreeKeys, DegreeValues(d), 0);
  }

  lemma DegreeDesc(d: Degree)
    ensures Get(DegreeRecord(d), "desc") == Some(Str(d.desc))
  {
    DegreeKeysDistinct();
    assert DegreeKeys[1] == "desc";
    assert DegreeValues(d)[1] == Str(d.desc);
    SweptAt(DegreeKeys, DegreeValues(d), 1);
  }

  lemma DegreeNumber(d: Degree)
    ensures Get(DegreeRecord(d), "degree") == Some(Int(d.degree))
  {
    DegreeKeysDistinct();
    assert DegreeKeys[2] == "degree";
    assert DegreeValues(d)[2] == Int(d.degree);
    SweptAt(DegreeKeys, DegreeValues(d), 2);
  }

  lemma DegreeSkills(d: Degree)
    ensures Get(DegreeRecord(d), "skills") == if d.skillGains == [] then None else Some(Obj(d.skillGains))
  {
    DegreeKeysDistinct();
    assert DegreeKeys[3] == "skills";
    assert DegreeValues(d)[3] == Obj(d.skillGains);
    SweptAt(DegreeKeys, DegreeValues(d), 3);
  }

  /**
   * One entry of `self.degrees`: the degree, exported, under its number. The number is
   * written in decimal, as the JSON output writes an integer key; the text determines the
   * number, so two entries share a key exactly when they share a degree.
   */
  function DegreeEntry(li: Node): Result<(string, Value)> {
    var d :- DegreeOf(li);
    Ok((ShowInt(d.degree), Obj(DegreeRecord(d))))
  }

  /** The loop `self.degrees[degree.degree] = degree` over the `<li>` of `degreeDatas`. */
  method CollectDegrees(lis: seq<Node>) returns (r: Result<Record>)
    ensures r == Gather(lis, DegreeEntry)
  {
    var degrees: Record := [];
    for i := 0 to |lis|
      invariant Gather(lis[..i], DegreeEntry) == Ok(degrees)
    {
      assert lis[..i + 1][..i] == lis[..i];
      var d := InitDegree(lis[i]);
      if d.Err? {
        GatherPrefix(lis, i + 1, DegreeEntry);
        return Err(d.fault);
      }
      var exported := ExportDegree(d.value);
      degrees := Put(degrees, ShowInt(d.value.degree), Obj(exported));
    }
    assert lis[..|lis|] == lis;
    return Ok(degrees);
  }

  // ---------------------------------------------------------------- one trait

  /** The four lists of trait and passion names a trait carries. */
  datatype Lists = Lists(
    conflictingTraits: seq<Value>, exclusionTags: seq<Value>,
    forcedFlames: seq<Value>, conflictingFlames: seq<Value>)

  /**
   * The lists as `trait.__init__` fills them: the `exclusionTags` items are appended to
   * `conflictingTraits` and the `conflictingPassions` items to `forcedFlames`, so the
   * exclusion tags and the conflicting passions are always empty.
   */
  function ListsAsWritten(tdef: Node): Lists {
    Lists(
      TextValues(Items(tdef, "conflictingTraits")) + TextValues(Items(tdef, "exclusionTags")),
      [],
      TextValues(Items(tdef, "forcedPassions")) + TextValues(Items(tdef, "conflictingPassions")),
      [])
  }

  /** The lists as they are evidently meant: each group's items in its own list. */
  function ListsOf(tdef: Node): Lists {
    Lists(
      TextValues(Items(tdef, "conflictingTraits")), TextValues(Items(tdef, "exclusionTags")),
      TextValues(Items(tdef, "forcedPassions")), TextValues(Items(tdef, "conflictingPassions")))
  }

  /** A trait with one exclusion tag and one conflicting passion. */
  const Example: Node := Node("TraitDef", map[], None, [
    Node("exclusionTags", map[], None, [Node("li", map[], Some("Drugs"), [])]),
    Node("conflictingPassions", map[], None, [Node("li", map[], Some("Shooting"), [])])])

  /**
   * As written, the example's exclusion tag is reported as a conflicting trait and its
   * conflicting passion as a forced one; the lists meant for them stay empty.
   */
  lemma ListsAsWrittenMisfile()
    ensures ListsAsWritten(Example) == Lists([Str("Drugs")], [], [Str("Shooting")], [])
    ensures ListsOf(Example) == Lists([], [Str("Drugs")], [], [Str("Shooting")])
  {
    ExampleEmptyGroups();
    ExampleTexts();
    GroupsOf(Example, [Str("Drugs")], [Str("Shooting")]);
  }

  /** Both readings of a trait whose only groups are its exclusion tags and conflicting passions. */
  lemma GroupsOf(tdef: Node, tags: seq<Value>, passions: seq<Value>)
    requires Items(tdef, "conflictingTraits") == [] && Items(tdef, "forcedPassions") == []
    requires TextValues(Items(tdef, "exclusionTags")) == tags
    requires TextValues(Items(tdef, "conflictingPassions")) == passions
    ensures ListsAsWritten(tdef) == Lists(tags, [], passions, [])
    ensures ListsOf(tdef) == Lists([], tags, [], passions)
  {
    assert TextValues([]) == [];
    assert [] + tags == tags && [] + passions == passions;
  }

  lemma ExampleTexts()
    ensures TextValues(Items(Example, "exclusionTags")) == [Str("Drugs")]
    ensures TextValues(Items(Example, "conflictingPassions")) == [Str("Shooting")]
  {
    ExampleExclusion();
    ExamplePassion();
    OneText(Example.children[0].children[0], "Drugs");
    OneText(Example.children[1].children[0], "Shooting");
  }

  lemma OneText(n: Node, t: string)
    requires n.text == Some(t)
    ensures TextValues([n]) == [Str(t)]
  {
    assert TextValues([n])[0] == Str(t);
  }

  lemma ExampleExclusion()
    ensures Items(Example, "exclusionTags") == [Example.children[0].children[0]]
  {
    var excl := Example.children[0];
    assert Kids(Example.children, "exclusionTags") == [excl];
    assert Flatten([excl]) == excl.children;
  }

  lemma ExamplePassion()
    ensures Items(Example, "conflictingPassions") == [Example.children[1].children[0]]
  {
    var pass := Example.children[1];
    assert Kids(Example.children, "conflictingPassions") == [pass];
    assert Flatten([pass]) == pass.children;
  }

  lemma ExampleEmptyGroups()
    ensures Items(Example, "conflictingTraits") == [] && Items(Example, "forcedPassions") == []
  {
    assert Kids(Example.children, "conflictingTraits") == [];
    assert Kids(Example.children, "forcedPassions") == [];
  }

  /** The fields `trait.__init__` reads from a `TraitDef`. */
  datatype Trait = Trait(
    defName: Option<string>, commonality: Value, lists: Lists, disabledWork: seq<string>,
    requiredWork: seq<string>, degrees: Record)

  /** `1.0 if commonality is None else float(commonality)` */
  function Commonality(t: Option<string>): (v: Value)
    ensures t.None? ==> v == Real("1.0")
  {
    match t
    case None => Real("1.0")
    case Some(s) => Real(s)
  }

  /**
   * `trait(tdef)`: the name, the commonality (1.0 when missing), the four lists as the loops
   * fill them, the two work-tag lists and the degrees keyed by their number. The exclusion
   * tags and the conflicting passions always come out empty.
   */
  function TraitOf(tdef: Node): (r: Result<Trait>)
    ensures r.Ok? ==> Unique(r.value.degrees) && r.value.lists == ListsAsWritten(tdef)
    ensures r.Ok? ==> r.value.lists.exclusionTags == [] && r.value.lists.conflictingFlames == []
    ensures r.Ok? ==> Gather(Items(tdef, "degreeDatas"), DegreeEntry) == Ok(r.value.degrees)
  {
    var disabledWork :- WorkTags(tdef, "disabledWorkTags");
    var requiredWork :- WorkTags(tdef, "requiredWorkTags");
    var degrees :- Gather(Items(tdef, "degreeDatas"), DegreeEntry);
    Ok(Trait(
      FindText(tdef, "defName"), Commonality(FindText(tdef, "commonality")), ListsAsWritten(tdef),
      disabledWork, requiredWork, degrees))
  }

  /**
   * The trait as it is evidently meant: the same fields, with each group's items in its own
   * list. It reads exactly when the trait as written does, and merging its lists as the
   * loops do gives the lists as written.
   */
  function TraitIntended(tdef: Node): (r: Result<Trait>)
    ensures r.Ok? <==> TraitOf(tdef).Ok?
    ensures r.Ok? ==> r.value.lists == ListsOf(tdef) && r.value.(lists := ListsAsWritten(tdef)) == TraitOf(tdef).value
    ensures r.Ok? ==> TraitOf(tdef).value.lists == Merged(r.value.lists)
  {
    var t :- TraitOf(tdef);
    Ok(t.(lists := ListsOf(tdef)))
  }

  /**
   * What the loops make of the four lists: the exclusion tags follow the conflicting traits,
   * the conflicting passions follow the forced ones, and the two lists they were meant for
   * stay empty.
   */
  function Merged(l: Lists): (r: Lists)
    ensures r.exclusionTags == [] && r.conflictingFlames == []
    ensures multiset(r.conflictingTraits) == multiset(l.conflictingTraits) + multiset(l.exclusionTags)
    ensures multiset(r.forcedFlames) == multiset(l.forcedFlames) + multiset(l.conflictingFlames)
  {
    Lists(l.conflictingTraits + l.exclusionTags, [], l.forcedFlames + l.conflictingFlames, [])
  }

  /** `trait.__init__`, with its list loops (two of them appending to another group's list) and its loop over the degrees. */
  method InitTrait(tdef: Node) returns (r: Result<Trait>)
    ensures r == TraitOf(tdef)
  {
    var commonality := Commonality(FindText(tdef, "commonality"));
    var conflictingTraits := AppendTexts([], Items(tdef, "conflictingTraits"));
    var exclusionTags: seq<Value> := [];
    conflictingTraits := AppendTexts(conflictingTraits, Items(tdef, "exclusionTags"));
    var forcedFlames := AppendTexts([], Items(tdef, "forcedPassions"));
    var conflictingFlames: seq<Value> := [];
    forcedFlames := AppendTexts(forcedFlames, Items(tdef, "conflictingPassions"));
    var disabledWork :- CollectWorkTags(tdef, "disabledWorkTags");
    var requiredWork :- CollectWorkTags(tdef, "requiredWorkTags");
    var degrees :- CollectDegrees(Items(tdef, "degreeDatas"));
    return Ok(Trait(
      FindText(tdef, "defName"), commonality,
      Lists(conflictingTraits, exclusionTags, forcedFlames, conflictingFlames),
      disabledWork, requiredWork, degrees));
  }

  /**
   * Degrees are keyed by number: a degree that no later `<li>` repeats is found under its
   * number as its own export; a later one with the same number replaces it.
   */
  lemma DegreesLast(tdef: Node, i: nat)
    requires TraitOf(tdef).Ok? && i < |Items(tdef, "degreeDatas")|
    ensures DegreeOf(Items(tdef, "degreeDatas")[i]).Ok?
    ensures var lis := Items(tdef, "degreeDatas"); var d := DegreeOf(lis[i]).value;
      (forall j :: i < j < |lis| ==> DegreeOf(lis[j]).Ok? && DegreeOf(lis[j]).value.degree != d.degree) ==>
      Get(TraitOf(tdef).value.degrees, ShowInt(d.degree)) == Some(Obj(DegreeRecord(d)))
  {
    var lis := Items(tdef, "degreeDatas");
    GatherFails(lis, DegreeEntry);
    assert DegreeEntry(lis[i]).Ok?;
    var d := DegreeOf(lis[i]).value;
    if forall j :: i < j < |lis| ==> DegreeOf(lis[j]).Ok? && DegreeOf(lis[j]).value.degree != d.degree {
      forall j | 0 <= j < |lis|
        ensures DegreeEntry(lis[j]).Ok?
      {
      }
      LaterKeysDiffer(lis, i);
      GatherLast(lis, DegreeEntry, i);
    }
  }

  /** Distinct degree numbers give distinct keys. */
  lemma LaterKeysDiffer(lis: seq<Node>, i: nat)
    requires i < |lis| && forall j :: 0 <= j < |lis| ==> DegreeOf(lis[j]).Ok?
    requires forall j :: i < j < |lis| ==> DegreeOf(lis[j]).value.degree != DegreeOf(lis[i]).value.degree
    ensures forall j :: i < j < |lis| ==> DegreeEntry(lis[j]).value.0 != DegreeEntry(lis[i]).value.0
  {
    forall j | i < j < |lis|
      ensures DegreeEntry(lis[j]).value.0 != DegreeEntry(lis[i]).value.0
    {
      PyIntShowInt(DegreeOf(lis[j]).value.degree);
      PyIntShowInt(DegreeOf(lis[i]).value.degree);
    }
  }

  // ---------------------------------------------------------------- export

  /** The keys of the dict `trait.export` returns, in its order. */
  const TraitKeys: seq<string> := [
    "name", "commonality", "conflictingTraits", "exclusionTags", "forcedFlames",
    "conflictingFlames", "disabledWork", "requiredWork", "degrees"]

  lemma TraitKeysDistinct()
    ensures Distinct(TraitKeys)
  {
  }

  function TraitValues(t: Trait): (vs: seq<Value>)
    ensures |vs| == |TraitKeys|
  {
    [TextValue(t.defName), t.commonality, List(t.lists.conflictingTraits),
     List(t.lists.exclusionTags), List(t.lists.forcedFlames), List(t.lists.conflictingFlames),
     List(Strs(t.disabledWork)), List(Strs(t.requiredWork)), Obj(t.degrees)]
  }

  /** What `trait.export` returns: the dict literal, with no sweep. */
  function TraitRecord(t: Trait): Record {
    Zip(TraitKeys, TraitValues(t))
  }

  /**
   * A trait is always exported with all nine keys, in order, even when a list or the
   * degrees are empty or the name is missing.
   */
  lemma TraitRecordKeys(t: Trait)
    ensures Unique(TraitRecord(t)) && Keys(TraitRecord(t)) == TraitKeys
  {
    TraitKeysDistinct();
    ZipGet(TraitKeys, TraitValues(t), 0);
    assert forall i :: 0 <= i < |TraitKeys| ==> Keys(TraitRecord(t))[i] == TraitKeys[i];
  }

  /** Each key of the exported trait holds its value, vacant or not. */
  lemma TraitRecordGet(t: Trait, i: nat)
    requires i < |TraitKeys|
    ensures Get(TraitRecord(t), TraitKeys[i]) == Some(TraitValues(t)[i])
  {
    TraitKeysDistinct();
    ZipGet(TraitKeys, TraitValues(t), i);
  }

  /** The exported trait holds its lists under their own keys. */
  lemma TraitRecordLists(t: Trait)
    ensures Get(TraitRecord(t), "conflictingTraits") == Some(List(t.lists.conflictingTraits))
    ensures Get(TraitRecord(t), "exclusionTags") == Some(List(t.lists.exclusionTags))
    ensures Get(TraitRecord(t), "forcedFlames") == Some(List(t.lists.forcedFlames))
    ensures Get(TraitRecord(t), "conflictingFlames") == Some(List(t.lists.conflictingFlames))
  {
    TraitRecordGet(t, 2);
    TraitRecordGet(t, 3);
    TraitRecordGet(t, 4);
    TraitRecordGet(t, 5);
  }

  /**
   * One `TraitDef`, read and exported: a dict of the nine keys, each once, whose
   * `exclusionTags` and `conflictingFlames` are always empty lists, while `conflictingTraits`
   * holds the conflicting traits and then the exclusion tags, and `forcedFlames` the forced
   * passions and then the conflicting ones.
   */
  function TraitExport(tdef: Node): (r: Result<Record>)
    ensures r.Err? <==> TraitOf(tdef).Err?
    ensures r.Ok? ==> Unique(r.value) && Keys(r.value) == TraitKeys
    ensures r.Ok? ==> Get(r.value, "exclusionTags") == Some(List([]))
    ensures r.Ok? ==> Get(r.value, "conflictingFlames") == Some(List([]))
    ensures r.Ok? ==>
      Get(r.value, "conflictingTraits") == Some(List(TextValues(Items(tdef, "conflictingTraits")) + TextValues(Items(tdef, "exclusionTags"))))
    ensures r.Ok? ==>
      Get(r.value, "forcedFlames") == Some(List(TextValues(Items(tdef, "forcedPassions")) + TextValues(Items(tdef, "conflictingPassions"))))
  {
    var t :- TraitOf(tdef);
    TraitRecordKeys(t);
    TraitRecordLists(t);
    Ok(TraitRecord(t))
  }

  /**
   * The export as it is evidently meant: it succeeds exactly when the one as written does,
   * and each of the four lists holds the `<li>` texts of its own group.
   */
  function TraitExportIntended(tdef: Node): (r: Result<Record>)
    ensures r.Ok? <==> TraitExport(tdef).Ok?
    ensures r.Ok? ==> Unique(r.value) && Keys(r.value) == TraitKeys
    ensures r.Ok? ==> Get(r.value, "conflictingTraits") == Some(List(TextValues(Items(tdef, "conflictingTraits"))))
    ensures r.Ok? ==> Get(r.value, "exclusionTags") == Some(List(TextValues(Items(tdef, "exclusionTags"))))
    ensures r.Ok? ==> Get(r.value, "forcedFlames") == Some(List(TextValues(Items(tdef, "forcedPassions"))))
    ensures r.Ok? ==> Get(r.value, "conflictingFlames") == Some(List(TextValues(Items(tdef, "conflictingPassions"))))
  {
    var t :- TraitIntended(tdef);
    TraitRecordKeys(t);
    TraitRecordLists(t);
    Ok(TraitRecord(t))
  }

  /** `trait(tdef).export()` */
  method ReadTrait(tdef: Node) returns (r: Result<Record>)
    ensures r == TraitExport(tdef)
  {
    var t := InitTrait(tdef);
    if t.Err? {
      return Err(t.fault);
    }
    return Ok(TraitRecord(t.value));
  }

  /** All traits read from the files share the nine keys. */
  lemma ReadTraitsKeys(defs: seq<Node>, i: nat)
    requires TryMap(defs, TraitExport).Ok? && i < |defs|
    ensures Keys(TryMap(defs, TraitExport).value[i]) == TraitKeys
  {
  }

  /** `for filePath in files: for tdef in tree.iterfind("./TraitDef"): traits.append(trait(tdef).export())`,
      walking the `TraitDef`s of every file in file order. */
  method ReadTraits(roots: seq<Node>) returns (r: Result<seq<Record>>)
    ensures r == TryMap(AllKids(roots, "TraitDef"), TraitExport)
  {
    var defs := AllKids(roots, "TraitDef");
    var traits: seq<Record> := [];
    for j := 0 to |defs|
      invariant TryMap(defs[..j], TraitExport) == Ok(traits)
    {
      var t := ReadTrait(defs[j]);
      TryMapSnoc(defs[..j], defs[j], TraitExport);
      TakeSnoc(defs, j);
      if t.Err? {
        TryMapStops(defs, TraitExport, j + 1);
        return Err(t.fault);
      }
      traits := traits + [t.value];
    }
    assert defs[..|defs|] == defs;
    return Ok(traits);
  }
}
