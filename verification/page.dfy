/**
 * The older single-page builder (page/main.js): the parts that are written differently from
 * the documentation site's builder. The rules check, the gene totals and the conflict counters
 * are the same code there and are modelled once, in `Builder`. The skill sums are the same code
 * too, but the page's skill inputs store text, so its sums are modelled here on points that may
 * be text.
 */
module Page {
  import opened Wrappers
  import opened Text
  import opened Builder

  /** `anyMatch` as a loop that returns at the first element of `a` found in `b`. */
  method AnyMatchLoop<T(==)>(a: seq<T>, b: seq<T>) returns (r: bool)
    ensures r == AnyMatch(a, b)
    ensures r <==> exists x :: x in a && x in b
  {
    for i := 0 to |a|
      invariant AnyMatch(a, b) == AnyMatch(a[i..], b)
    {
      assert a[i..][1..] == a[i + 1..];
      if a[i] in b {
        return true;
      }
    }
    return false;
  }

  /** The page files every chosen gene under the xenogenes, whatever the gene says. */
  function AsXenogene(gene: GeneInfo): GeneInfo {
    gene.(endogene := false)
  }

  /**
   * Checking a gene on the page appends it to the xenogenes and leaves the endogenes alone;
   * clearing it right after gives back the genes held, and the very same genotype when the
   * xenogenes did not hold the gene before.
   */
  lemma XenoToggle(g: Genotype, gene: GeneInfo)
    ensures Checked(g, AsXenogene(gene)).xenogenes == g.xenogenes + [gene.name]
    ensures Checked(g, AsXenogene(gene)).endogenes == g.endogenes
    ensures var r := Unchecked(Checked(g, AsXenogene(gene)), AsXenogene(gene));
      multiset(r.endogenes + r.xenogenes) == multiset(g.endogenes + g.xenogenes)
    ensures gene.name !in g.xenogenes ==> Unchecked(Checked(g, AsXenogene(gene)), AsXenogene(gene)) == g
  {
    CheckUncheckGenes(g, AsXenogene(gene));
    if gene.name !in g.xenogenes {
      CheckUncheck(g, AsXenogene(gene));
    }
  }

  /**
   * Clearing a gene that the xenogenes do not hold: `indexOf` gives -1 and `splice(-1, 1)`
   * drops the last xenogene instead.
   */
  lemma XenoUncheckAbsent(g: Genotype, gene: GeneInfo)
    requires gene.name !in g.xenogenes && |g.xenogenes| > 0
    ensures Unchecked(g, AsXenogene(gene)) == g.(xenogenes := g.xenogenes[..|g.xenogenes| - 1])
  {
    RemoveAbsent(g.xenogenes, gene.name);
  }

  /**
   * The age inputs multiply their text by the ticks in a year, which reads it with `Number`;
   * on the decimal text of a whole number of years that is the same age as the `parseInt`
   * of the documentation site's handlers.
   */
  lemma AgeReadsAgree(years: int)
    ensures JsNumber(ShowInt(years)).Times(TicksPerYear) == Num(years * TicksPerYear)
    ensures JsNumber(ShowInt(years)) == JsParseInt(ShowInt(years), 0)
  {
    JsNumberShowInt(years);
    JsParseShowInt(years);
  }

  // ---------------------------------------------------------------- skill points

  /**
   * A skill's points as the page holds them: a number (the initial 0, or a saved pawn's), or,
   * once the skill's input has changed, the input's text, which the page stores as it is.
   */
  datatype Point = Count(n: JsNum) | Input(text: string)

  /** `String(p)` */
  function PointText(p: Point): string {
    match p
    case Count(n) => n.Show()
    case Input(t) => t
  }

  /** `a + b`: two numbers add; when either side is text, the two are written one after the other. */
  function Concat(a: Point, b: Point): Point {
    if a.Count? && b.Count? then Count(a.n.Add(b.n)) else Input(PointText(a) + PointText(b))
  }

  /** The number `total > limit` compares: text is read with `Number` first. */
  function PointValue(p: Point): JsNum {
    match p
    case Count(n) => n
    case Input(t) => JsNumber(t)
  }

  /** The page's `Skills`: points that may have become text, and the flames of a saved pawn. */
  datatype PageSkills = PageSkills(points: map<Skill, Point>, flames: map<Skill, int>) {
    function Points(k: Skill): Point {
      if k in points then points[k] else Count(Num(0))
    }

    function Flames(k: Skill): int {
      if k in flames then flames[k] else 0
    }
  }

  /** `t1 + t2 + ... + tn` over the skills, left to right, with JavaScript's `+`. */
  function Sum(ks: seq<Skill>, term: Skill -> Point): Point
    decreases |ks|
  {
    if |ks| == 0 then Count(Num(0))
    else if |ks| == 1 then term(ks[0])
    else Concat(Sum(ks[..|ks| - 1], term), term(ks[|ks| - 1]))
  }

  /** A sum of numbers is the documentation site's sum of the same numbers. */
  lemma {:induction false} SumOfCounts(ks: seq<Skill>, term: Skill -> Point, numbers: Skill -> JsNum)
    requires forall i :: 0 <= i < |ks| ==> term(ks[i]) == Count(numbers(ks[i]))
    ensures Sum(ks, term) == Count(Total(ks, numbers))
    decreases |ks|
  {
    if |ks| > 1 {
      SumOfCounts(ks[..|ks| - 1], term, numbers);
    }
  }

  /** A sum is text exactly when one of its terms is. */
  lemma {:induction false} SumText(ks: seq<Skill>, term: Skill -> Point)
    ensures Sum(ks, term).Input? <==> exists i :: 0 <= i < |ks| && term(ks[i]).Input?
    decreases |ks|
  {
    if |ks| > 1 {
      var init := ks[..|ks| - 1];
      SumText(init, term);
      if exists i :: 0 <= i < |init| && term(init[i]).Input? {
        var i :| 0 <= i < |init| && term(init[i]).Input?;
        assert term(ks[i]).Input?;
      }
      if exists i :: 0 <= i < |ks| && term(ks[i]).Input? {
        var i :| 0 <= i < |ks| && term(ks[i]).Input?;
        if i < |init| {
          assert term(init[i]).Input?;
        }
      }
    }
  }

  function PointsOf(s: PageSkills): Skill -> Point {
    k => s.Points(k)
  }

  /** The terms of the page's `totalFlames`: the construction points among the flames, as on the documentation site. */
  function FlamesOf(s: PageSkills): Skill -> Point {
    k => if k == Construction then s.Points(k) else Count(Num(s.Flames(k)))
  }

  /** The documentation site's `Skills` holding the numbers the page's points read as. */
  function Numbers(s: PageSkills): Skills {
    Skills(map k | k in s.points :: PointValue(s.points[k]), s.flames)
  }

  /** A point that is a number is that number on the documentation site. */
  lemma NumbersAt(s: PageSkills, k: Skill)
    requires s.Points(k).Count?
    ensures s.Points(k) == Count(Numbers(s).Points(k))
    ensures Numbers(s).Flames(k) == s.Flames(k)
  {
  }

  /** The page's point total is text exactly when one skill's points are, and a number sum otherwise. */
  lemma PointsSum(s: PageSkills)
    ensures Sum(AllSkills, PointsOf(s)).Input? <==> exists k :: s.Points(k).Input?
    ensures (forall k :: s.Points(k).Count?) ==>
      Sum(AllSkills, PointsOf(s)) == Count(TotalPoints(Numbers(s)))
  {
    SumText(AllSkills, PointsOf(s));
    if exists k :: s.Points(k).Input? {
      var k :| s.Points(k).Input?;
      assert PointsOf(s)(AllSkills[SkillIndex(k)]).Input?;
    }
    if forall k :: s.Points(k).Count? {
      forall k {
        NumbersAt(s, k);
      }
      SumOfCounts(AllSkills, PointsOf(s), PointsTerm(Numbers(s)));
    }
  }

  /** The page's flame total is text exactly when the construction points are, and a number sum otherwise. */
  lemma FlamesSum(s: PageSkills)
    ensures Sum(AllSkills, FlamesOf(s)).Input? <==> s.Points(Construction).Input?
    ensures s.Points(Construction).Count? ==>
      Sum(AllSkills, FlamesOf(s)) == Count(TotalFlamesAsWritten(Numbers(s)))
  {
    SumText(AllSkills, FlamesOf(s));
    assert AllSkills[2] == Construction;
    if s.Points(Construction).Count? {
      NumbersAt(s, Construction);
      SumOfCounts(AllSkills, FlamesOf(s), FlamesTermAsWritten(Numbers(s)));
    }
  }

  /**
   * `skills.totalPoints()` on the page: text as soon as one skill's points are text, and the
   * documentation site's total of the same numbers while none is.
   */
  function TotalPointsOf(s: PageSkills): (r: Point)
    ensures r.Input? <==> exists k :: s.Points(k).Input?
    ensures (forall k :: s.Points(k).Count?) ==> r == Count(TotalPoints(Numbers(s)))
  {
    PointsSum(s);
    Sum(AllSkills, PointsOf(s))
  }

  /**
   * `skills.totalFlames()` on the page: text exactly when the construction points are, since
   * they are the one term that is not a flame; otherwise the documentation site's total as
   * written.
   */
  function TotalFlamesOf(s: PageSkills): (r: Point)
    ensures r.Input? <==> s.Points(Construction).Input?
    ensures s.Points(Construction).Count? ==> r == Count(TotalFlamesAsWritten(Numbers(s)))
  {
    FlamesSum(s);
    Sum(AllSkills, FlamesOf(s))
  }

  /** `ruleset.verify(pawn)` on the page: the same checks, on the totals the page computes. */
  function Verdict(rules: Ruleset, g: Genotype, s: PageSkills): (r: string)
    ensures r == "" <==>
      (forall i :: 0 <= i < |rules.bannedGenes| ==> !HasGene(g, rules.bannedGenes[i]))
      && !Exceeds(PointValue(TotalPointsOf(s)), rules.maxSkillAlloc)
      && !Exceeds(PointValue(TotalFlamesOf(s)), rules.maxFlames)
  {
    VerdictFor(rules, g, PointValue(TotalPointsOf(s)), PointValue(TotalFlamesOf(s)))
  }

  /** While every point is a number, the page's verdict is the documentation site's. */
  lemma VerdictOfNumbers(rules: Ruleset, g: Genotype, s: PageSkills)
    requires forall k :: s.Points(k).Count?
    ensures Verdict(rules, g, s) == Builder.Verdict(rules, g, Numbers(s))
  {
  }

  /** A pawn whose medicine input was changed to "5", every other skill still at 0. */
  function MedicineFive(): PageSkills {
    PageSkills(map[Medicine := Input("5")], map[])
  }

  /** The nine skills before Medicine add up to the number 0. */
  lemma BeforeMedicine()
    ensures Sum(AllSkills[..9], PointsOf(MedicineFive())) == Count(Num(0))
  {
    var zero: Skill -> JsNum := k => Num(0);
    var before := AllSkills[..9];
    assert forall i :: 0 <= i < |before| ==> before[i] != Medicine;
    SumOfCounts(before, PointsOf(MedicineFive()), zero);
    TotalBounds(before, zero, 0, 0);
  }

  /** The page writes the total as "0500": the number 0, then the text "5", then two more zeros. */
  lemma MedicineSum()
    ensures TotalPointsOf(MedicineFive()) == Input("0500")
  {
    var t := PointsOf(MedicineFive());
    BeforeMedicine();
    ShowIntZero(0);
    assert AllSkills[..10][..9] == AllSkills[..9];
    assert Sum(AllSkills[..10], t) == Input("05");
    assert AllSkills[..11][..10] == AllSkills[..10];
    assert Sum(AllSkills[..11], t) == Input("050");
    assert AllSkills[..|AllSkills| - 1] == AllSkills[..11];
  }

  /** "0500" reads as 500. */
  lemma FiveHundred(d: string)
    requires |d| == 4 && d[0] == '0' && d[1] == '5' && d[2] == '0' && d[3] == '0'
    ensures JsNumber(d) == Num(500)
  {
    assert Decimal(d);
    JsNumberDecimal(d);
    assert DigitsValue(d[..1], 10) == 0 by {
      assert d[..1][..0] == [];
    }
    assert DigitsValue(d[..2], 10) == 5 by {
      assert d[..2][..1] == d[..1];
    }
    assert DigitsValue(d[..3], 10) == 50 by {
      assert d[..3][..2] == d[..2];
    }
    assert d[..4][..3] == d[..3];
    assert d[..4] == d;
  }

  /** The page holds the medicine pawn's total of 500 against a limit of 60. */
  lemma PageRejectsMedicine(g: Genotype)
    ensures PointValue(TotalPointsOf(MedicineFive())) == Num(500)
    ensures Verdict(Ruleset([], Bound(60), Unbounded), g, MedicineFive()) != ""
  {
    MedicineSum();
    FiveHundred("0500");
  }

  /** The documentation site's pawn holding the number 5 totals 5 points at most. */
  lemma SiteAcceptsMedicine(g: Genotype)
    ensures Builder.Verdict(Ruleset([], Bound(60), Unbounded), g, Skills(map[Medicine := Num(5)], map[])) == ""
  {
    var d := Skills(map[Medicine := Num(5)], map[]);
    TotalBounds(AllSkills, PointsTerm(d), 0, 5);
    TotalBounds(AllSkills, FlamesTermAsWritten(d), 0, 5);
  }

  /**
   * With a limit of 60 points, the page rejects a pawn whose medicine input was changed to
   * "5", every other skill at 0: its total is the text "0500", which reads as 500. The same
   * pawn holding the number 5, as the documentation site's handler stores it, is accepted.
   */
  lemma MedicineReadsAsHundreds(g: Genotype)
    ensures PointValue(TotalPointsOf(MedicineFive())) == Num(500)
    ensures Verdict(Ruleset([], Bound(60), Unbounded), g, MedicineFive()) != ""
    ensures Builder.Verdict(Ruleset([], Bound(60), Unbounded), g, Skills(map[Medicine := Num(5)], map[])) == ""
  {
    PageRejectsMedicine(g);
    SiteAcceptsMedicine(g);
  }

  /** The fields of the page's `Pawn` that its handlers write. */
  class Pawn {
    var tickAgeBio: JsNum
    var tickAgeChron: JsNum
    var genotype: Genotype
    var skills: PageSkills

    /** The `change` handler of the biological age input; the text copied to the other input, if any. */
    method OnBioAgeChange(text: string) returns (chronText: Option<string>)
      modifies this`tickAgeBio, this`tickAgeChron
      ensures Ages(tickAgeBio, tickAgeChron) == WithBio(Ages(old(tickAgeBio), old(tickAgeChron)), JsNumber(text).Times(TicksPerYear))
      ensures chronText == if old(tickAgeChron).Below(tickAgeBio) then Some(text) else None
    {
      tickAgeBio := JsNumber(text).Times(TicksPerYear);
      chronText := None;
      if tickAgeChron.Below(tickAgeBio) {
        tickAgeChron := tickAgeBio;
        chronText := Some(text);
      }
    }

    /** The `change` handler of the chronological age input. */
    method OnChronAgeChange(text: string) returns (bioText: Option<string>)
      modifies this`tickAgeBio, this`tickAgeChron
      ensures Ages(tickAgeBio, tickAgeChron) == WithChron(Ages(old(tickAgeBio), old(tickAgeChron)), JsNumber(text).Times(TicksPerYear))
      ensures bioText == if tickAgeChron.Below(old(tickAgeBio)) then Some(text) else None
    {
      tickAgeChron := JsNumber(text).Times(TicksPerYear);
      bioText := None;
      if tickAgeChron.Below(tickAgeBio) {
        tickAgeBio := tickAgeChron;
        bioText := Some(text);
      }
    }

    /**
     * The `change` handler of a skill's number input: the input's text is stored as it is.
     * The page has such a handler for every skill but Social, which has no input.
     */
    method OnSkillChange(k: Skill, text: string)
      requires k != Social
      modifies this`skills
      ensures skills == old(skills).(points := old(skills).points[k := Input(text)])
    {
      skills := skills.(points := skills.points[k := Input(text)]);
    }

    /** The gene list and the counters of the `change` handler of a gene's checkbox. */
    method OnGeneChange(boxes: array<CheckBox>, gene: GeneInfo, own: string, checked: bool)
      modifies this`genotype, boxes
      ensures checked ==> genotype == Checked(old(genotype), AsXenogene(gene))
      ensures checked ==> boxes[..] == SetAll(old(boxes[..]), own, GeneHit(gene))
      ensures !checked ==> genotype == Unchecked(old(genotype), AsXenogene(gene))
      ensures !checked ==> boxes[..] == UnsetAll(old(boxes[..]), own, GeneHit(gene))
    {
      if checked {
        genotype := genotype.(xenogenes := genotype.xenogenes + [gene.name]);
        SetGeneConflicts(boxes, own, GeneHit(gene));
      } else {
        var index := IndexOf(genotype.xenogenes, gene.name);
        genotype := genotype.(xenogenes := SpliceOne(genotype.xenogenes, index));
        UnsetGeneConflicts(boxes, own, GeneHit(gene));
      }
    }
  }
}
