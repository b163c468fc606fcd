/**
 * `scripts/backstories.py`: every `BackstoryDef` of the definitions files, read and exported,
 * sorted into the adulthood and the childhood lists by its slot.
 */
module Backstories {
  import opened Wrappers
  import opened Text
  import opened Xml
  import opened Records
  import opened Defs
  import Traits

  // ---------------------------------------------------------------- files

  /** A definitions file found by the directory walk: its file name and its parsed root. */
  datatype XmlFile = XmlFile(name: string, root: Node)

  /** The file names the script never reads. */
  const Exclude: seq<string> := ["Special.xml", "TynanCustom.xml"]

  /** `filter(lambda x: x.name not in exclude, files)`, keeping the walk's order. */
  function Included(files: seq<XmlFile>): (r: seq<XmlFile>)
    ensures |r| <= |files|
    ensures forall f :: f in r <==> f in files && f.name !in Exclude
    decreases |files|
  {
    if |files| == 0 then []
    else
      var rest := Included(files[1..]);
      assert forall f :: f in files <==> f == files[0] || f in files[1..];
      if files[0].name in Exclude then rest else [files[0]] + rest
  }

  /** The parsed roots of the files, in order. */
  function Roots(files: seq<XmlFile>): (r: seq<Node>)
    ensures |r| == |files| && forall i :: 0 <= i < |files| ==> r[i] == files[i].root
  {
    seq(|files|, i requires 0 <= i < |files| => files[i].root)
  }

  // ---------------------------------------------------------------- descriptions

  /**
   * The replacements `backstory.cleanDescription` makes, in order: the line-break steps and
   * the bracket forms of the pawn placeholders. Unlike the trait cleaner there are no
   * brace forms.
   */
  const Replacements: seq<(string, string)> := [
    ("\\n", "\n"), ("\n\n", "\n"),
    ("[PAWN_nameDef]", "This pawn"), ("[PAWN_pronoun]", "This pawn"),
    ("[PAWN_possessive]", "their"), ("[PAWN_objective]", "them")]

  /**
   * The replacement chain of `backstory.cleanDescription`, before the trailing comma. Every
   * replacement is no longer than its pattern, so the cleaned text is never longer than the
   * raw one.
   */
  function CleanDescription(text: string): (r: string)
    ensures |r| <= |text|
  {
    ReplaceChainShorter(text, Replacements);
    ReplaceChain(text, Replacements)
  }

  /** The trait cleaner is the backstory cleaner followed by the four brace steps. */
  lemma TraitCleanExtends(text: string)
    ensures Traits.CleanDescription(text) == ReplaceChain(CleanDescription(text), Traits.Replacements[6..])
  {
    assert Traits.Replacements == Replacements + Traits.Replacements[6..];
    Traits.ChainAppend(text, Replacements, Traits.Replacements[6..]);
  }

  /** Text with no backslash, no line break and no bracket is returned unchanged. */
  lemma CleanPlain(text: string)
    requires '\\' !in text && '\n' !in text && '[' !in text
    ensures CleanDescription(text) == text
  {
    forall i | 0 <= i < |Replacements|
      ensures |Replacements[i].0| > 0 && !Contains(text, Replacements[i].0)
    {
      var c := if i == 0 then '\\' else if i == 1 then '\n' else '[';
      assert c in Replacements[i].0;
      Lacks(text, Replacements[i].0, c);
    }
    ReplaceChainAbsent(text, Replacements);
  }

  /** Only the bracket forms are replaced: a brace placeholder survives, where the trait cleaner replaces it. */
  lemma BracesKept()
    ensures CleanDescription("{PAWN_possessive}") == "{PAWN_possessive}"
    ensures Traits.CleanDescription("{PAWN_possessive}") == "their"
  {
    assert '\\' !in "{PAWN_possessive}" && '\n' !in "{PAWN_possessive}";
    assert '[' !in "{PAWN_possessive}" by { Traits.PossessiveNoBracket(); }
    CleanPlain("{PAWN_possessive}");
    Traits.CleanBraces();
  }

  /**
   * `cleanDescription` as written: the chain ends in a comma, so it returns a one-element
   * tuple, which the JSON output writes as a one-element list. A missing `baseDesc` fails
   * on `None.replace`.
   */
  function DescAsWritten(text: Option<string>): Result<Value> {
    match text
    case None => Err(NoneAttribute)
    case Some(t) => Ok(List([Str(CleanDescription(t))]))
  }

  /** `cleanDescription` as intended: the cleaned string itself. */
  function Desc(text: Option<string>): (r: Result<Value>)
    ensures text.None? <==> r == Err(NoneAttribute)
    ensures r.Ok? ==> r.value.Str? && r.value.s == CleanDescription(text.value)
  {
    match text
    case None => Err(NoneAttribute)
    case Some(t) => Ok(Str(CleanDescription(t)))
  }

  /** As written, every description is exported as a list holding the intended string, never as a string. */
  lemma DescAsWrittenWraps(text: Option<string>)
    ensures DescAsWritten(text).Err? <==> Desc(text).Err?
    ensures DescAsWritten(text).Ok? ==> DescAsWritten(text).value == List([Desc(text).value])
    ensures DescAsWritten(text).Ok? ==> DescAsWritten(text).value != Desc(text).value
  {
  }

  /** A plain description read by the corrected cleaner comes back as it was written. */
  lemma DescPlain(text: string)
    requires '\\' !in text && '\n' !in text && '[' !in text
    ensures Desc(Some(text)) == Ok(Str(text))
    ensures DescAsWritten(Some(text)) == Ok(List([Str(text)]))
  {
    CleanPlain(text);
  }

  // ---------------------------------------------------------------- one backstory

  /**
   * The fields `backstory.__init__` reads from a `BackstoryDef`; `desc` is the value the
   * export writes for the description.
   */
  datatype Backstory = Backstory(
    defName: Option<string>, title: Option<string>, titleShort: Option<string>, desc: Value,
    slot: Option<string>, skills: Record, disabledWork: seq<string>, requiredWork: seq<string>,
    forcedTraits: Record)

  /** One `forcedTraits` child: its tag as the key, `0` for a child without text, `int(text)` otherwise. */
  function ForcedTraitEntry(item: Node): (r: Result<(string, Value)>)
    ensures r.Ok? ==> r.value.0 == item.tag && r.value.1.Int?
    ensures item.text.None? ==> r == Ok((item.tag, Int(0)))
    ensures item.text.Some? ==> (r.Ok? <==> PyInt(item.text.value).Ok?)
    ensures item.text.Some? && r.Ok? ==> PyInt(item.text.value) == Ok(r.value.1.i)
  {
    var n :- IntOr(item.text, 0);
    Ok((item.tag, Int(n)))
  }

  /**
   * `backstory(bdef)`: a missing `baseDesc` fails, the description is the one-element tuple
   * the cleaner returns, every `skillGains` entry needs a key and a value, the work lists are
   * read as for traits, and each child of `forcedTraits` gives one entry.
   */
  function BackstoryOf(bdef: Node): (r: Result<Backstory>)
    ensures FindText(bdef, "baseDesc").None? ==> r == Err(NoneAttribute)
    ensures r.Ok? ==> r.value.desc == List([Str(CleanDescription(FindText(bdef, "baseDesc").value))])
    ensures r.Ok? ==> r.value.slot == FindText(bdef, "slot")
    ensures r.Ok? ==> Unique(r.value.skills) && Unique(r.value.forcedTraits)
    ensures r.Ok? ==> Gather(Under(bdef, "forcedTraits"), ForcedTraitEntry) == Ok(r.value.forcedTraits)
  {
    var desc :- DescAsWritten(FindText(bdef, "baseDesc"));
    var skills :- Gather(Items(bdef, "skillGains"), SkillEntry);
    var disabledWork :- WorkTags(bdef, "workDisables");
    var requiredWork :- WorkTags(bdef, "requiredWorkTags");
    var forcedTraits :- Gather(Under(bdef, "forcedTraits"), ForcedTraitEntry);
    Ok(Backstory(
      FindText(bdef, "defName"), FindText(bdef, "title"), FindText(bdef, "titleShort"), desc,
      FindText(bdef, "slot"), skills, disabledWork, requiredWork, forcedTraits))
  }

  /**
   * The backstory as it is evidently meant: it reads exactly when the one as written does,
   * with the same fields, except that the description is the cleaned string the tuple holds.
   */
  function BackstoryIntended(bdef: Node): (r: Result<Backstory>)
    ensures r.Ok? <==> BackstoryOf(bdef).Ok?
    ensures r.Ok? ==> r.value.desc == Str(CleanDescription(FindText(bdef, "baseDesc").value))
    ensures r.Ok? ==> List([r.value.desc]) == BackstoryOf(bdef).value.desc
    ensures r.Ok? ==> r.value.(desc := BackstoryOf(bdef).value.desc) == BackstoryOf(bdef).value
  {
    var b :- BackstoryOf(bdef);
    var desc :- Desc(FindText(bdef, "baseDesc"));
    Ok(b.(desc := desc))
  }

  /** `backstory.__init__`, with its loops over the skills, the work lists and the forced traits. */
  method InitBackstory(bdef: Node) returns (r: Result<Backstory>)
    ensures r == BackstoryOf(bdef)
  {
    var desc := FindText(bdef, "baseDesc");
    if desc.None? {
      return Err(NoneAttribute);
    }
    var skills :- Collect(Items(bdef, "skillGains"), SkillEntry);
    var disabledWork :- CollectWorkTags(bdef, "workDisables");
    var requiredWork :- CollectWorkTags(bdef, "requiredWorkTags");
    var forcedTraits :- Collect(Under(bdef, "forcedTraits"), ForcedTraitEntry);
    return Ok(Backstory(
      FindText(bdef, "defName"), FindText(bdef, "title"), FindText(bdef, "titleShort"),
      List([Str(CleanDescription(desc.value))]), FindText(bdef, "slot"), skills, disabledWork, requiredWork,
      forcedTraits));
  }

  /**
   * A forced trait is found under its tag with the entry of its last occurrence, which is 0
   * for a child without text and its integer otherwise.
   */
  lemma ForcedTraitLast(bdef: Node, i: nat)
    requires BackstoryOf(bdef).Ok? && i < |Under(bdef, "forcedTraits")|
    requires forall j :: i < j < |Under(bdef, "forcedTraits")| ==>
      Under(bdef, "forcedTraits")[j].tag != Under(bdef, "forcedTraits")[i].tag
    ensures var item := Under(bdef, "forcedTraits")[i];
      ForcedTraitEntry(item).Ok? &&
      Get(BackstoryOf(bdef).value.forcedTraits, item.tag) == Some(ForcedTraitEntry(item).value.1)
  {
    var items := Under(bdef, "forcedTraits");
    GatherFails(items, ForcedTraitEntry);
    GatherLast(items, ForcedTraitEntry, i);
  }

  /** A forced trait whose text is not an integer makes the whole backstory fail. */
  lemma ForcedTraitNeedsInt(bdef: Node, k: nat)
    requires k < |Under(bdef, "forcedTraits")|
    requires Under(bdef, "forcedTraits")[k].text.Some? && PyInt(Under(bdef, "forcedTraits")[k].text.value).Err?
    ensures BackstoryOf(bdef).Err?
  {
    GatherFails(Under(bdef, "forcedTraits"), ForcedTraitEntry);
  }

  /** A `skillGains` entry without its key or its value makes the whole backstory fail. */
  lemma SkillNeedsKeyAndValue(bdef: Node, k: nat)
    requires k < |Items(bdef, "skillGains")|
    requires FindText(Items(bdef, "skillGains")[k], "key").None? || FindText(Items(bdef, "skillGains")[k], "value").None?
    ensures BackstoryOf(bdef).Err?
  {
    GatherFails(Items(bdef, "skillGains"), SkillEntry);
  }

  // ---------------------------------------------------------------- export

  /** The keys of the dict `backstory.export` returns, in its order. */
  const BackstoryKeys: seq<string> := [
    "name", "title", "titleShort", "desc", "skills", "disabledWork", "requiredWork", "traits"]

  lemma BackstoryKeysDistinct()
    ensures Distinct(BackstoryKeys)
  {
  }

  /** The values of the export. */
  function BackstoryValues(b: Backstory): (vs: seq<Value>)
    ensures |vs| == |BackstoryKeys|
  {
    [TextValue(b.defName), TextValue(b.title), TextValue(b.titleShort), b.desc,
     Obj(b.skills), List(Strs(b.disabledWork)), List(Strs(b.requiredWork)), Obj(b.forcedTraits)]
  }

  /** What `backstory.export` returns: the dict literal, with no sweep. */
  function BackstoryRecord(b: Backstory): Record {
    Zip(BackstoryKeys, BackstoryValues(b))
  }

  /**
   * A backstory is always exported with all eight keys, in order: a missing title is kept as
   * null and empty skills, work lists and traits are kept too.
   */
  lemma BackstoryRecordKeys(b: Backstory)
    ensures Unique(BackstoryRecord(b)) && Keys(BackstoryRecord(b)) == BackstoryKeys
  {
    BackstoryKeysDistinct();
    ZipGet(BackstoryKeys, BackstoryValues(b), 0);
    assert forall i :: 0 <= i < |BackstoryKeys| ==> Keys(BackstoryRecord(b))[i] == BackstoryKeys[i];
  }

  /** The exported fields hold what was read: the names, the description and the traits. */
  lemma BackstoryRecordFields(b: Backstory)
    ensures Get(BackstoryRecord(b), "name") == Some(TextValue(b.defName))
    ensures Get(BackstoryRecord(b), "title") == Some(TextValue(b.title))
    ensures Get(BackstoryRecord(b), "desc") == Some(b.desc)
    ensures Get(BackstoryRecord(b), "traits") == Some(Obj(b.forcedTraits))
  {
    BackstoryKeysDistinct();
    ZipGet(BackstoryKeys, BackstoryValues(b), 0);
    ZipGet(BackstoryKeys, BackstoryValues(b), 1);
    ZipGet(BackstoryKeys, BackstoryValues(b), 3);
    ZipGet(BackstoryKeys, BackstoryValues(b), 7);
  }

  /**
   * A backstory read from a definition is exported with its description as a list holding
   * the cleaned text, never as the text; as intended it is the text itself.
   */
  lemma ExportedDesc(bdef: Node)
    requires BackstoryOf(bdef).Ok?
    ensures var clean := CleanDescription(FindText(bdef, "baseDesc").value);
      && Get(BackstoryRecord(BackstoryOf(bdef).value), "desc") == Some(List([Str(clean)]))
      && Get(BackstoryRecord(BackstoryIntended(bdef).value), "desc") == Some(Str(clean))
  {
    BackstoryRecordFields(BackstoryOf(bdef).value);
    BackstoryRecordFields(BackstoryIntended(bdef).value);
  }

  // ---------------------------------------------------------------- slots

  /** The export of one backstory, if its slot is `slot`. */
  function Slotted(b: Backstory, slot: string): (r: seq<Record>)
    ensures |r| <= 1 && (r != [] <==> b.slot == Some(slot))
  {
    if b.slot == Some(slot) then [BackstoryRecord(b)] else []
  }

  /** An adulthood goes to the adulthoods only, a childhood to the childhoods only, any other slot to neither. */
  lemma SlottedCases(b: Backstory)
    ensures b.slot == Some("Adulthood") ==> Slotted(b, "Adulthood") == [BackstoryRecord(b)] && Slotted(b, "Childhood") == []
    ensures b.slot == Some("Childhood") ==> Slotted(b, "Adulthood") == [] && Slotted(b, "Childhood") == [BackstoryRecord(b)]
    ensures b.slot != Some("Adulthood") && b.slot != Some("Childhood") ==> Slotted(b, "Adulthood") == [] == Slotted(b, "Childhood")
  {
    assert "Adulthood"[0] != "Childhood"[0];
  }

  /** The exports of the backstories whose slot is `slot`, in order. */
  function InSlot(bs: seq<Backstory>, slot: string): (r: seq<Record>)
    ensures |r| <= |bs|
    decreases |bs|
  {
    if |bs| == 0 then [] else InSlot(bs[..|bs| - 1], slot) + Slotted(bs[|bs| - 1], slot)
  }

  /** The list of a slot holds exactly the exports of the backstories in that slot. */
  lemma {:induction false} InSlotMembers(bs: seq<Backstory>, slot: string)
    ensures forall rec :: rec in InSlot(bs, slot) <==> exists b :: b in bs && b.slot == Some(slot) && rec == BackstoryRecord(b)
    decreases |bs|
  {
    if |bs| > 0 {
      var init := bs[..|bs| - 1];
      assert bs == init + [bs[|bs| - 1]];
      InSlotMembers(init, slot);
    }
  }

  /** The backstories whose slot is neither `Adulthood` nor `Childhood`. */
  function Unslotted(bs: seq<Backstory>): (r: seq<Backstory>)
    ensures forall b :: b in r <==> b in bs && b.slot != Some("Adulthood") && b.slot != Some("Childhood")
    decreases |bs|
  {
    if |bs| == 0 then []
    else
      var init := bs[..|bs| - 1];
      var b := bs[|bs| - 1];
      assert forall x :: x in bs <==> x in init || x == b;
      Unslotted(init) + if b.slot != Some("Adulthood") && b.slot != Some("Childhood") then [b] else []
  }

  /**
   * Every backstory lands in exactly one of the two lists or is dropped: the two lists and
   * the dropped ones together are as many as the backstories read.
   */
  lemma {:induction false} SlotPartition(bs: seq<Backstory>)
    ensures |InSlot(bs, "Adulthood")| + |InSlot(bs, "Childhood")| + |Unslotted(bs)| == |bs|
    decreases |bs|
  {
    if |bs| > 0 {
      SlotPartition(bs[..|bs| - 1]);
    }
  }

  /** The two lists of the script, or the failure of the first backstory that does not read. */
  function Sorted(defs: seq<Node>): Result<(seq<Record>, seq<Record>)> {
    var bs :- TryMap(defs, BackstoryOf);
    Ok((InSlot(bs, "Adulthood"), InSlot(bs, "Childhood")))
  }

  /**
   * The script writes its lists only when every backstory of every file reads; otherwise it
   * stops with the failure of the first that does not.
   */
  lemma SortedFails(defs: seq<Node>)
    ensures Sorted(defs).Err? <==> exists i :: 0 <= i < |defs| && BackstoryOf(defs[i]).Err?
    ensures Sorted(defs).Err? ==> Sorted(defs) == Err(TryMap(defs, BackstoryOf).fault)
  {
  }

  /** Appending one backstory appends its export to the list of its slot. */
  lemma InSlotSnoc(bs: seq<Backstory>, b: Backstory, slot: string)
    ensures InSlot(bs + [b], slot) == InSlot(bs, slot) + Slotted(b, slot)
  {
    assert (bs + [b])[..|bs|] == bs;
  }

  /**
   * The loop of the script over the files not excluded and the `BackstoryDef`s of each, in
   * order: each is read and exported, then appended to the adulthoods or the childhoods by
   * its slot, or dropped.
   */
  method ReadBackstories(files: seq<XmlFile>) returns (r: Result<(seq<Record>, seq<Record>)>)
    ensures r == Sorted(AllKids(Roots(Included(files)), "BackstoryDef"))
  {
    var bs :- ReadAll(AllKids(Roots(Included(files)), "BackstoryDef"));
    var adulthoods, childhoods := SortSlots(bs);
    return Ok((adulthoods, childhoods));
  }

  /** `backstory(bdef)` for each definition in order, stopping at the first that fails. */
  method ReadAll(defs: seq<Node>) returns (r: Result<seq<Backstory>>)
    ensures r == TryMap(defs, BackstoryOf)
  {
    var bs: seq<Backstory> := [];
    for j := 0 to |defs|
      invariant TryMap(defs[..j], BackstoryOf) == Ok(bs)
    {
      var b := InitBackstory(defs[j]);
      TryMapSnoc(defs[..j], defs[j], BackstoryOf);
      TakeSnoc(defs, j);
      if b.Err? {
        TryMapStops(defs, BackstoryOf, j + 1);
        return Err(b.fault);
      }
      bs := bs + [b.value];
    }
    assert defs[..|defs|] == defs;
    return Ok(bs);
  }

  /** The `if b.slot == "Adulthood": ... elif b.slot == "Childhood": ...` appends, in order. */
  method SortSlots(bs: seq<Backstory>) returns (adulthoods: seq<Record>, childhoods: seq<Record>)
    ensures adulthoods == InSlot(bs, "Adulthood") && childhoods == InSlot(bs, "Childhood")
  {
    adulthoods, childhoods := [], [];
    for j := 0 to |bs|
      invariant adulthoods == InSlot(bs[..j], "Adulthood") && childhoods == InSlot(bs[..j], "Childhood")
    {
      var b := bs[j];
      TakeSnoc(bs, j);
      InSlotSnoc(bs[..j], b, "Adulthood");
      InSlotSnoc(bs[..j], b, "Childhood");
      SlottedCases(b);
      if b.slot == Some("Adulthood") {
        assert childhoods + [] == childhoods;
        adulthoods := adulthoods + [BackstoryRecord(b)];
      } else if b.slot == Some("Childhood") {
        assert adulthoods + [] == adulthoods;
        childhoods := childhoods + [BackstoryRecord(b)];
      } else {
        assert adulthoods + [] == adulthoods && childhoods + [] == childhoods;
      }
    }
    assert bs[..|bs|] == bs;
  }
}
