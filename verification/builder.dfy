/**
 * The pawn builder page (`docs/main.js`): the rules check a game applies to a pawn, the gene
 * and skill totals it reads, the conflict counters that disable and enable the checkboxes of
 * the traits dialog and of the gene list, the gene lists a checkbox edits, the grouping of
 * genes by category, and the age, passion and food rules of the form.
 *
 * A number read from a form input is a `JsNum` (NaN when the text is not a number); the
 * numbers of the gene table and of the rules are integers.
 */
module Builder {
  import opened Wrappers
  import opened Text
  import opened Formatters

  // ---------------------------------------------------------------- anyMatch

  /**
   * `a.some((value) => b.includes(value))`: the scan finds a match exactly when the two
   * lists share an element.
   */
  function AnyMatch<T(==)>(a: seq<T>, b: seq<T>): (r: bool)
    ensures r <==> exists x :: x in a && x in b
    decreases |a|
  {
    if |a| == 0 then false
    else
      assert a == [a[0]] + a[1..];
      a[0] in b || AnyMatch(a[1..], b)
  }

  /** Which list is scanned does not matter. */
  lemma AnyMatchSymmetric<T>(a: seq<T>, b: seq<T>)
    ensures AnyMatch(a, b) == AnyMatch(b, a)
  {
  }

  // ---------------------------------------------------------------- Genotype

  /** A pawn's genes: its xenotype, the genes it inherits and the genes added to it. */
  datatype Genotype = Genotype(xenotype: string, endogenes: seq<string>, xenogenes: seq<string>)

  /** `genotype.hasGene(name)` */
  predicate HasGene(g: Genotype, name: string) {
    name in g.endogenes || name in g.xenogenes
  }

  /**
   * The fields of an entry of the gene table that the page reads: the name, the optional
   * complexity and metabolism, whether it has an `endogeneCategory`, the optional exclusion
   * tags and the optional display category.
   */
  datatype GeneInfo = GeneInfo(
    name: string,
    complexity: Option<int>,
    metabolism: Option<int>,
    endogene: bool,
    exclusionTags: Option<seq<string>>,
    displayCategory: Option<string>)

  /** The position of the first entry with the name, or the length of the table when there is none. */
  function FirstIndex(table: seq<GeneInfo>, name: string): (i: nat)
    ensures i <= |table|
    ensures i < |table| ==> table[i].name == name
    ensures forall j :: 0 <= j < i ==> table[j].name != name
    decreases |table|
  {
    if |table| == 0 then 0
    else if table[0].name == name then 0
    else
      assert forall j :: 1 <= j < |table| ==> table[j] == table[1..][j - 1];
      1 + FirstIndex(table[1..], name)
  }

  /** `genes.find((value) => value.name == name)` */
  function Find(table: seq<GeneInfo>, name: string): (r: Option<GeneInfo>)
    ensures r.None? <==> forall i :: 0 <= i < |table| ==> table[i].name != name
    ensures r.Some? ==> r.value in table && r.value.name == name
    decreases |table|
  {
    if |table| == 0 then None
    else if table[0].name == name then Some(table[0])
    else
      assert forall i :: 1 <= i < |table| ==> table[i] == table[1..][i - 1];
      Find(table[1..], name)
  }

  /** `find` returns the first entry with the name: the one at `FirstIndex`, and nothing when that is past the end. */
  lemma {:induction false} FindFirst(table: seq<GeneInfo>, name: string)
    ensures Find(table, name) == if FirstIndex(table, name) < |table| then Some(table[FirstIndex(table, name)]) else None
    decreases |table|
  {
    if |table| > 0 && table[0].name != name {
      FindFirst(table[1..], name);
    }
  }

  /** What `stats()` returns: the summed complexity and metabolism. */
  datatype GeneStats = GeneStats(complexity: int, metabolism: int) {
    function Add(other: GeneStats): GeneStats {
      GeneStats(complexity + other.complexity, metabolism + other.metabolism)
    }
  }

  /** What one gene adds: `gene.complexity || 0` and `gene.metabolism || 0`. */
  function Contribution(gene: GeneInfo): GeneStats {
    GeneStats(gene.complexity.GetOr(0), gene.metabolism.GetOr(0))
  }

  /**
   * The totals over a list of gene names, taken in order; a name the table does not hold
   * stops the sum, since a field of `undefined` is read.
   */
  function StatsOf(table: seq<GeneInfo>, names: seq<string>): Result<GeneStats>
    decreases |names|
  {
    if |names| == 0 then Ok(GeneStats(0, 0))
    else
      var init := names[..|names| - 1];
      var name := names[|names| - 1];
      match StatsOf(table, init)
      case Err(f) => Err(f)
      case Ok(before) =>
        match Find(table, name)
        case None => Err(UnknownGene(name))
        case Some(gene) => Ok(before.Add(Contribution(gene)))
  }

  /** The totals fail exactly when some name is missing from the table. */
  lemma {:induction false} StatsKnown(table: seq<GeneInfo>, names: seq<string>)
    ensures StatsOf(table, names).Err? <==> exists i :: 0 <= i < |names| && Find(table, names[i]).None?
    decreases |names|
  {
    if |names| > 0 {
      var init := names[..|names| - 1];
      StatsKnown(table, init);
      assert forall i :: 0 <= i < |init| ==> init[i] == names[i];
    }
  }

  /** Once a prefix of the names fails, the whole list fails the same way. */
  lemma {:induction false} StatsStop(table: seq<GeneInfo>, names: seq<string>, k: nat)
    requires k <= |names| && StatsOf(table, names[..k]).Err?
    ensures StatsOf(table, names) == StatsOf(table, names[..k])
    decreases |names| - k
  {
    if k == |names| {
      assert names[..k] == names;
    } else {
      assert names[..k + 1][..k] == names[..k];
      StatsStop(table, names, k + 1);
    }
  }

  lemma StatsNext(table: seq<GeneInfo>, names: seq<string>, i: nat, out: GeneStats, info: GeneInfo)
    requires i < |names| && StatsOf(table, names[..i]) == Ok(out) && Find(table, names[i]) == Some(info)
    ensures StatsOf(table, names[..i + 1]) == Ok(out.Add(Contribution(info)))
  {
    assert names[..i + 1][..i] == names[..i];
  }

  lemma StatsUnknown(table: seq<GeneInfo>, names: seq<string>, i: nat)
    requires i < |names| && StatsOf(table, names[..i]).Ok? && Find(table, names[i]).None?
    ensures StatsOf(table, names) == Err(UnknownGene(names[i]))
  {
    assert names[..i + 1][..i] == names[..i];
    StatsStop(table, names, i + 1);
  }

  /** The totals of two lists of known genes add up. */
  lemma {:induction false} StatsAppend(table: seq<GeneInfo>, a: seq<string>, b: seq<string>)
    requires StatsOf(table, a).Ok? && StatsOf(table, b).Ok?
    ensures StatsOf(table, a + b) == Ok(StatsOf(table, a).value.Add(StatsOf(table, b).value))
    decreases |b|
  {
    if |b| == 0 {
      assert a + b == a;
    } else {
      var init := b[..|b| - 1];
      assert (a + b)[..|a + b| - 1] == a + init;
      assert (a + b)[|a + b| - 1] == b[|b| - 1];
      StatsAppend(table, a, init);
    }
  }

  /** A list of names is known when every name is. */
  lemma StatsPartsKnown(table: seq<GeneInfo>, a: seq<string>, b: seq<string>)
    requires StatsOf(table, a + b).Ok?
    ensures StatsOf(table, a).Ok? && StatsOf(table, b).Ok?
  {
    StatsKnown(table, a + b);
    StatsKnown(table, a);
    StatsKnown(table, b);
    forall i | 0 <= i < |a| ensures Find(table, a[i]).Some? {
      assert (a + b)[i] == a[i];
    }
    forall i | 0 <= i < |b| ensures Find(table, b[i]).Some? {
      assert (a + b)[|a| + i] == b[i];
    }
  }

  /** Moving every gene between the two lists leaves the totals as they are. */
  lemma StatsSwap(table: seq<GeneInfo>, g: Genotype)
    requires StatsOf(table, g.endogenes + g.xenogenes).Ok?
    ensures StatsOf(table, g.xenogenes + g.endogenes) == StatsOf(table, g.endogenes + g.xenogenes)
  {
    StatsPartsKnown(table, g.endogenes, g.xenogenes);
    StatsAppend(table, g.endogenes, g.xenogenes);
    StatsAppend(table, g.xenogenes, g.endogenes);
  }

  /**
   * One pass of that loop: `out.complexity += gene.complexity || 0` and the same for the
   * metabolism, for the gene named `names[i]`; a name with no gene is where the loop throws.
   */
  method TallyOne(table: seq<GeneInfo>, names: seq<string>, i: nat, sum: GeneStats)
    returns (r: Result<GeneStats>)
    requires i < |names| && StatsOf(table, names[..i]) == Ok(sum)
    ensures r.Ok? ==> r == StatsOf(table, names[..i + 1])
    ensures r.Err? ==> r == StatsOf(table, names)
  {
    var gene := Find(table, names[i]);
    if gene.None? {
      StatsUnknown(table, names, i);
      return Err(UnknownGene(names[i]));
    }
    var info := gene.value;
    StatsNext(table, names, i, sum, info);
    var out := sum;
    out := out.(complexity := out.complexity + info.complexity.GetOr(0));
    out := out.(metabolism := out.metabolism + info.metabolism.GetOr(0));
    assert out == sum.Add(Contribution(info));
    return Ok(out);
  }

  /**
   * One of the two identical loops of `genotype.stats()`, over `names[lo..hi]`, adding to
   * `out`; a name with no gene in the table is where `gene.complexity` throws.
   */
  method Tally(table: seq<GeneInfo>, names: seq<string>, lo: nat, hi: nat, out: GeneStats)
    returns (r: Result<GeneStats>)
    requires lo <= hi <= |names| && StatsOf(table, names[..lo]) == Ok(out)
    ensures r.Ok? ==> r == StatsOf(table, names[..hi])
    ensures r.Err? ==> r == StatsOf(table, names)
  {
    var sum := out;
    for i := lo to hi
      invariant StatsOf(table, names[..i]) == Ok(sum)
    {
      var step := TallyOne(table, names, i, sum);
      if step.Err? {
        return step;
      }
      sum := step.value;
    }
    return Ok(sum);
  }

  /** `genotype.stats()`: the loop over the endogenes, then the loop over the xenogenes. */
  method Stats(table: seq<GeneInfo>, g: Genotype) returns (r: Result<GeneStats>)
    ensures r == StatsOf(table, g.endogenes + g.xenogenes)
  {
    var names := g.endogenes + g.xenogenes;
    assert names[..0] == [];
    r := Tally(table, names, 0, |g.endogenes|, GeneStats(0, 0));
    if r.Ok? {
      r := Tally(table, names, |g.endogenes|, |names|, r.value);
      assert names[..|names|] == names;
    }
  }

  /**
   * The food need shown beside the metabolism, in percent:
   * `Math.max(100 + (m < 0 ? -25 * m : -10 * m), 50)`.
   */
  function FoodPercent(metabolism: int): (r: int)
    ensures r >= 50
    ensures metabolism == 0 ==> r == 100
    ensures r == 50 <==> metabolism >= 5
    ensures metabolism < 0 ==> r == 100 - 25 * metabolism
  {
    var need := 100 + (if metabolism < 0 then -25 * metabolism else -10 * metabolism);
    if need > 50 then need else 50
  }

  /** More metabolism never needs more food. */
  lemma FoodNonIncreasing(m1: int, m2: int)
    requires m1 <= m2
    ensures FoodPercent(m1) >= FoodPercent(m2)
  {
    if m1 < 0 && m2 >= 0 {
      assert FoodPercent(m1) > 100 >= FoodPercent(m2);
    }
  }

  // ---------------------------------------------------------------- Skills

  datatype Skill =
    | Shooting | Melee | Construction | Mining | Cooking | Plants
    | Animals | Crafting | Artistic | Medicine | Social | Intellectual

  /** The twelve skills, in the order the totals add them. */
  const AllSkills: seq<Skill> :=
    [Shooting, Melee, Construction, Mining, Cooking, Plants,
     Animals, Crafting, Artistic, Medicine, Social, Intellectual]

  /**
   * A pawn's `Skills`: the points of each skill, as the number input read them, and its
   * flames (passion). A skill without an entry still holds the initial 0.
   */
  datatype Skills = Skills(points: map<Skill, JsNum>, flames: map<Skill, int>) {
    function Points(k: Skill): JsNum {
      if k in points then points[k] else Num(0)
    }

    function Flames(k: Skill): int {
      if k in flames then flames[k] else 0
    }
  }

  /** `x1 + x2 + ... + xn` over the skills, left to right. */
  function Total(ks: seq<Skill>, term: Skill -> JsNum): JsNum
    decreases |ks|
  {
    if |ks| == 0 then Num(0) else Total(ks[..|ks| - 1], term).Add(term(ks[|ks| - 1]))
  }

  function PointsTerm(s: Skills): Skill -> JsNum {
    k => s.Points(k)
  }

  function FlamesTerm(s: Skills): Skill -> JsNum {
    k => Num(s.Flames(k))
  }

  /** The terms `totalFlames` adds as written: the construction points, not its flames. */
  function FlamesTermAsWritten(s: Skills): Skill -> JsNum {
    k => if k == Construction then s.Points(k) else Num(s.Flames(k))
  }

  /** `skills.totalPoints()`: NaN exactly when one skill's points could not be read. */
  function TotalPoints(s: Skills): (r: JsNum)
    ensures r.NaN? <==> exists k :: s.Points(k).NaN?
  {
    AllSkillsNaN(PointsTerm(s));
    assert forall k :: PointsTerm(s)(k) == s.Points(k);
    Total(AllSkills, PointsTerm(s))
  }

  /** `skills.totalFlames()` as intended: the sum of the twelve flames, always a number. */
  function TotalFlames(s: Skills): (r: JsNum)
    ensures r.Num?
  {
    AllSkillsNaN(FlamesTerm(s));
    Total(AllSkills, FlamesTerm(s))
  }

  /**
   * `skills.totalFlames()` as written: NaN exactly when the construction points are, and
   * otherwise off from the intended total by the construction points minus the construction
   * flames.
   */
  function TotalFlamesAsWritten(s: Skills): (r: JsNum)
    ensures r.NaN? <==> s.Points(Construction).NaN?
    ensures s.Points(Construction).Num? ==>
      r == TotalFlames(s).Plus(s.Points(Construction).v - s.Flames(Construction))
  {
    ConstructionShift(s);
    Total(AllSkills, FlamesTermAsWritten(s))
  }

  lemma ConstructionShift(s: Skills)
    ensures Total(AllSkills, FlamesTermAsWritten(s)).NaN? <==> s.Points(Construction).NaN?
    ensures s.Points(Construction).Num? ==>
      Total(AllSkills, FlamesTermAsWritten(s)) == Total(AllSkills, FlamesTerm(s)).Plus(s.Points(Construction).v - s.Flames(Construction))
  {
    AllSkillsNaN(FlamesTermAsWritten(s));
    if s.Points(Construction).Num? {
      var d := s.Points(Construction).v - s.Flames(Construction);
      TotalShift(AllSkills, FlamesTerm(s), FlamesTermAsWritten(s), Construction, d);
      ConstructionOnce();
      assert forall k :: FlamesTermAsWritten(s)(k).Num?;
    } else {
      assert FlamesTermAsWritten(s)(Construction).NaN?;
    }
  }

  /** A total over the twelve skills is NaN exactly when the term of some skill is. */
  lemma AllSkillsNaN(term: Skill -> JsNum)
    ensures Total(AllSkills, term).NaN? <==> exists k :: term(k).NaN?
  {
    TotalNaN(AllSkills, term);
    forall k | term(k).NaN? ensures exists i :: 0 <= i < |AllSkills| && term(AllSkills[i]).NaN? {
      var i := SkillIndex(k);
      assert term(AllSkills[i]).NaN?;
    }
  }

  /** The number of times `k` occurs in `ks`. */
  function Count(ks: seq<Skill>, k: Skill): nat
    decreases |ks|
  {
    if |ks| == 0 then 0 else Count(ks[..|ks| - 1], k) + (if ks[|ks| - 1] == k then 1 else 0)
  }

  /** A total is NaN exactly when one of its terms is. */
  lemma {:induction false} TotalNaN(ks: seq<Skill>, term: Skill -> JsNum)
    ensures Total(ks, term).NaN? <==> exists i :: 0 <= i < |ks| && term(ks[i]).NaN?
    decreases |ks|
  {
    if |ks| > 0 {
      var init := ks[..|ks| - 1];
      TotalNaN(init, term);
      assert forall i :: 0 <= i < |init| ==> init[i] == ks[i];
    }
  }

  /** A total of numbers each between `lo` and `hi` lies between `n * lo` and `n * hi`. */
  lemma {:induction false} TotalBounds(ks: seq<Skill>, term: Skill -> JsNum, lo: int, hi: int)
    requires forall i :: 0 <= i < |ks| ==> term(ks[i]).Num? && lo <= term(ks[i]).v <= hi
    ensures Total(ks, term).Num?
    ensures |ks| * lo <= Total(ks, term).v <= |ks| * hi
    decreases |ks|
  {
    if |ks| > 0 {
      var init := ks[..|ks| - 1];
      assert forall i :: 0 <= i < |init| ==> init[i] == ks[i];
      TotalBounds(init, term, lo, hi);
      assert |init| * lo + lo == |ks| * lo;
      assert |init| * hi + hi == |ks| * hi;
    }
  }

  /** Raising the term of one skill by `d` raises the total by `d` for each time it is added. */
  lemma {:induction false} TotalShift(ks: seq<Skill>, f: Skill -> JsNum, g: Skill -> JsNum, k0: Skill, d: int)
    requires forall k :: k != k0 ==> g(k) == f(k)
    requires f(k0).Num? && g(k0) == Num(f(k0).v + d)
    ensures Total(ks, g) == Total(ks, f).Plus(d * Count(ks, k0))
    decreases |ks|
  {
    if |ks| > 0 {
      var init := ks[..|ks| - 1];
      TotalShift(init, f, g, k0, d);
      assert d * Count(init, k0) + d == d * (Count(init, k0) + 1);
    }
  }

  lemma ConstructionOnce()
    ensures Count(AllSkills, Construction) == 1
  {
    var ks := AllSkills;
    assert ks[..2] == [Shooting, Melee];
    assert Count(ks[..2], Construction) == 0 by {
      assert ks[..2][..1] == [Shooting];
      assert [Shooting][..0] == [];
    }
    assert ks[..3][..2] == ks[..2];
    assert Count(ks[..3], Construction) == 1;
    var i := 3;
    while i < |ks|
      invariant 3 <= i <= |ks|
      invariant Count(ks[..i], Construction) == 1
    {
      assert ks[..i + 1][..i] == ks[..i];
      i := i + 1;
    }
    assert ks[..|ks|] == ks;
  }

  /** A pawn with eight construction points and no passion at all counts eight flames as written. */
  lemma FlamesCountConstructionPoints()
    ensures TotalFlames(Skills(map[Construction := Num(8)], map[])) == Num(0)
    ensures TotalFlamesAsWritten(Skills(map[Construction := Num(8)], map[])) == Num(8)
  {
    var s := Skills(map[Construction := Num(8)], map[]);
    TotalBounds(AllSkills, FlamesTerm(s), 0, 0);
  }

  /** With every passion between 0 and 2, the intended total is a number from 0 to 24. */
  lemma FlamesBounded(s: Skills)
    requires forall k :: 0 <= s.Flames(k) <= 2
    ensures TotalFlames(s).Num? && 0 <= TotalFlames(s).v <= 24
  {
    TotalBounds(AllSkills, FlamesTerm(s), 0, 2);
  }

  /** Where a skill stands in `AllSkills`. */
  function SkillIndex(k: Skill): (i: nat)
    ensures i < |AllSkills| && AllSkills[i] == k
  {
    match k
    case Shooting => 0
    case Melee => 1
    case Construction => 2
    case Mining => 3
    case Cooking => 4
    case Plants => 5
    case Animals => 6
    case Crafting => 7
    case Artistic => 8
    case Medicine => 9
    case Social => 10
    case Intellectual => 11
  }

  /** `(flames + 1) % 3`, with the JavaScript remainder (it takes the sign of the dividend). */
  function NextPassion(flames: int): (r: int)
    ensures flames >= -1 ==> 0 <= r <= 2
    ensures 0 <= flames <= 1 ==> r == flames + 1
    ensures flames == 2 ==> r == 0
  {
    var n := flames + 1;
    if n >= 0 then n % 3 else -((-n) % 3)
  }

  /** Three clicks on a passion icon bring it back to where it was. */
  lemma PassionCycle(flames: int)
    requires 0 <= flames <= 2
    ensures NextPassion(NextPassion(NextPassion(flames))) == flames
  {
    var f1 := NextPassion(flames);
    var f2 := NextPassion(f1);
    assert 0 <= f1 <= 2 && 0 <= f2 <= 2;
  }

  // ---------------------------------------------------------------- Ruleset

  /** A limit of the rules: a number the game set, or the initial `Infinity`. */
  datatype Limit = Bound(n: int) | Unbounded {
    /** `limit.toString()` */
    function Show(): string {
      match this
      case Bound(n) => ShowInt(n)
      case Unbounded => "Infinity"
    }
  }

  /** `total > limit`: false for NaN and against `Infinity`. */
  predicate Exceeds(total: JsNum, limit: Limit) {
    total.Num? && limit.Bound? && total.v > limit.n
  }

  /** The fields of a `Ruleset` that `verify` reads. */
  datatype Ruleset = Ruleset(bannedGenes: seq<string>, maxSkillAlloc: Limit, maxFlames: Limit)

  /** The first gene of the banned list, in the rules' order, that the pawn has. */
  function FirstBanned(banned: seq<string>, g: Genotype): (r: Option<string>)
    ensures r.None? <==> forall i :: 0 <= i < |banned| ==> !HasGene(g, banned[i])
    ensures r.Some? ==> exists i :: (0 <= i < |banned| && banned[i] == r.value && HasGene(g, r.value)
      && forall j :: 0 <= j < i ==> !HasGene(g, banned[j]))
    decreases |banned|
  {
    if |banned| == 0 then None
    else if HasGene(g, banned[0]) then Some(banned[0])
    else
      assert forall i :: 1 <= i < |banned| ==> banned[i] == banned[1..][i - 1];
      FirstBanned(banned[1..], g)
  }

  /**
   * The checks of `ruleset.verify(pawn)` in order, with the point and flame totals they
   * compare given: the first problem found, or "" when there is none.
   */
  function VerdictFor(rules: Ruleset, g: Genotype, points: JsNum, flames: JsNum): (r: string)
    ensures r == "" <==>
      (forall i :: 0 <= i < |rules.bannedGenes| ==> !HasGene(g, rules.bannedGenes[i]))
      && !Exceeds(points, rules.maxSkillAlloc)
      && !Exceeds(flames, rules.maxFlames)
  {
    match FirstBanned(rules.bannedGenes, g)
    case Some(gene) => "Has banned gene: " + gene
    case None =>
      if Exceeds(points, rules.maxSkillAlloc) then
        "Too many allocated skill points (max " + rules.maxSkillAlloc.Show() + ")"
      else if Exceeds(flames, rules.maxFlames) then
        "Too many skill flames (max " + rules.maxFlames.Show() + ")"
      else ""
  }

  /**
   * What `ruleset.verify(pawn)` returns: the first problem it finds, or "" when there is none.
   * The flame limit is held against `totalFlames()` as written, construction points included.
   */
  function Verdict(rules: Ruleset, g: Genotype, s: Skills): (r: string)
    ensures r == "" <==>
      (forall i :: 0 <= i < |rules.bannedGenes| ==> !HasGene(g, rules.bannedGenes[i]))
      && !Exceeds(TotalPoints(s), rules.maxSkillAlloc)
      && !Exceeds(TotalFlamesAsWritten(s), rules.maxFlames)
  {
    VerdictFor(rules, g, TotalPoints(s), TotalFlamesAsWritten(s))
  }

  /** The verdict as it is evidently meant: the flame limit held against the twelve flames. */
  function VerdictIntended(rules: Ruleset, g: Genotype, s: Skills): (r: string)
    ensures r == "" <==>
      (forall i :: 0 <= i < |rules.bannedGenes| ==> !HasGene(g, rules.bannedGenes[i]))
      && !Exceeds(TotalPoints(s), rules.maxSkillAlloc)
      && !Exceeds(TotalFlames(s), rules.maxFlames)
  {
    VerdictFor(rules, g, TotalPoints(s), TotalFlames(s))
  }

  /**
   * The two verdicts differ only at the flame check: when they differ, no banned gene was
   * found, the points are within their limit and exactly one of the two flame totals is over
   * the limit. They agree whenever the construction points equal the construction flames.
   */
  lemma VerdictsDiffer(rules: Ruleset, g: Genotype, s: Skills)
    ensures Verdict(rules, g, s) != VerdictIntended(rules, g, s) ==>
      && FirstBanned(rules.bannedGenes, g).None?
      && !Exceeds(TotalPoints(s), rules.maxSkillAlloc)
      && Exceeds(TotalFlamesAsWritten(s), rules.maxFlames) != Exceeds(TotalFlames(s), rules.maxFlames)
    ensures s.Points(Construction) == Num(s.Flames(Construction)) ==> Verdict(rules, g, s) == VerdictIntended(rules, g, s)
  {
    if s.Points(Construction) == Num(s.Flames(Construction)) {
      assert TotalFlamesAsWritten(s) == TotalFlames(s).Plus(0);
    }
  }

  /**
   * With no banned genes, no limit on the points and at most 0 flames, a pawn with eight
   * construction points and no passion is rejected as written and accepted as intended.
   */
  lemma VerdictCountsConstruction(g: Genotype)
    ensures var s := Skills(map[Construction := Num(8)], map[]);
      var rules := Ruleset([], Unbounded, Bound(0));
      Verdict(rules, g, s) == "Too many skill flames (max 0)" && VerdictIntended(rules, g, s) == ""
  {
    var s := Skills(map[Construction := Num(8)], map[]);
    FlamesCountConstructionPoints();
    ZeroLimitShown();
    FlamesOnlyOver(Ruleset([], Unbounded, Bound(0)), g, s);
  }

  lemma ZeroLimitShown()
    ensures Bound(0).Show() == "0"
  {
    assert ShowNat(0, 10) == "0";
  }

  /**
   * When no banned gene is found and the points are within their limit, a pawn whose flames
   * are within the limit as intended but over it as written is rejected for its flames as
   * written and accepted as intended.
   */
  lemma FlamesOnlyOver(rules: Ruleset, g: Genotype, s: Skills)
    requires FirstBanned(rules.bannedGenes, g).None? && !Exceeds(TotalPoints(s), rules.maxSkillAlloc)
    requires Exceeds(TotalFlamesAsWritten(s), rules.maxFlames) && !Exceeds(TotalFlames(s), rules.maxFlames)
    ensures Verdict(rules, g, s) == "Too many skill flames (max " + rules.maxFlames.Show() + ")"
    ensures VerdictIntended(rules, g, s) == ""
  {
  }

  /** A banned gene is reported before any skill limit, and the first one in the list is named. */
  lemma VerdictBannedFirst(rules: Ruleset, g: Genotype, s: Skills, i: nat)
    requires i < |rules.bannedGenes| && HasGene(g, rules.bannedGenes[i])
    requires forall j :: 0 <= j < i ==> !HasGene(g, rules.bannedGenes[j])
    ensures Verdict(rules, g, s) == "Has banned gene: " + rules.bannedGenes[i]
  {
    var r := FirstBanned(rules.bannedGenes, g);
    assert r.Some?;
    var k :| 0 <= k < |rules.bannedGenes| && rules.bannedGenes[k] == r.value && HasGene(g, r.value)
      && forall j :: 0 <= j < k ==> !HasGene(g, rules.bannedGenes[j]);
    assert k == i by {
      assert !(k < i) && !(i < k);
    }
  }

  /** `ruleset.verify(pawn)`: the loop over the banned genes returns at the first one found. */
  method Verify(rules: Ruleset, pawn: Pawn) returns (msg: string)
    ensures msg == Verdict(rules, pawn.genotype, pawn.skills)
  {
    for i := 0 to |rules.bannedGenes|
      invariant forall j :: 0 <= j < i ==> !HasGene(pawn.genotype, rules.bannedGenes[j])
    {
      var gene := rules.bannedGenes[i];
      if HasGene(pawn.genotype, gene) {
        VerdictBannedFirst(rules, pawn.genotype, pawn.skills, i);
        return "Has banned gene: " + gene;
      }
    }
    assert FirstBanned(rules.bannedGenes, pawn.genotype).None?;
    var points := TotalPoints(pawn.skills);
    var flames := TotalFlamesAsWritten(pawn.skills);
    if Exceeds(points, rules.maxSkillAlloc) {
      return "Too many allocated skill points (max " + rules.maxSkillAlloc.Show() + ")";
    }
    if Exceeds(flames, rules.maxFlames) {
      return "Too many skill flames (max " + rules.maxFlames.Show() + ")";
    }
    return "";
  }

  // ---------------------------------------------------------------- gene lists

  /** `xs.indexOf(x)`: the first index holding `x`, or -1. */
  function IndexOf<T(==)>(xs: seq<T>, x: T): (r: int)
    ensures -1 <= r < |xs|
    ensures r == -1 <==> x !in xs
    ensures 0 <= r ==> xs[r] == x && x !in xs[..r]
    decreases |xs|
  {
    if |xs| == 0 then -1
    else if xs[0] == x then 0
    else
      var i := IndexOf(xs[1..], x);
      assert xs == [xs[0]] + xs[1..];
      assert 0 <= i ==> xs[..i + 1] == [xs[0]] + xs[1..][..i];
      if i < 0 then -1 else i + 1
  }

  /** `xs.splice(start, 1)`: a negative start counts back from the end, one past the end removes nothing. */
  function SpliceOne<T>(xs: seq<T>, start: int): seq<T> {
    var k := if start >= 0 then start else if |xs| + start >= 0 then |xs| + start else 0;
    if k < |xs| then xs[..k] + xs[k + 1..] else xs
  }

  /** `xs.splice(xs.indexOf(x), 1)` */
  function RemoveOne<T(==)>(xs: seq<T>, x: T): seq<T> {
    SpliceOne(xs, IndexOf(xs, x))
  }

  /** Removing a present element takes away exactly one copy of it. */
  lemma RemoveOnePresent<T>(xs: seq<T>, x: T)
    requires x in xs
    ensures multiset(RemoveOne(xs, x)) == multiset(xs) - multiset{x}
    ensures |RemoveOne(xs, x)| == |xs| - 1
  {
    var i := IndexOf(xs, x);
    assert xs == xs[..i] + [x] + xs[i + 1..];
  }

  /** Removing an element that was just appended, and was not there before, gives the list back. */
  lemma RemoveAppended<T>(xs: seq<T>, x: T)
    requires x !in xs
    ensures RemoveOne(xs + [x], x) == xs
  {
    var ys := xs + [x];
    var i := IndexOf(ys, x);
    assert ys[|xs|] == x;
    assert forall j :: 0 <= j < |xs| ==> ys[j] == xs[j];
    assert forall j :: 0 <= j < i ==> ys[..i][j] == ys[j];
    assert i == |xs|;
    assert ys[..i] == xs;
  }

  /** `indexOf` of an absent element is -1, and `splice(-1, 1)` removes the last element. */
  lemma RemoveAbsent<T>(xs: seq<T>, x: T)
    requires x !in xs && |xs| > 0
    ensures RemoveOne(xs, x) == xs[..|xs| - 1]
  {
    assert xs[|xs| - 1..][1..] == [];
  }

  /** The genotype after a gene's checkbox is checked: the name goes to the list its kind names. */
  function Checked(g: Genotype, gene: GeneInfo): (r: Genotype)
    ensures HasGene(r, gene.name)
    ensures forall n :: HasGene(r, n) <==> HasGene(g, n) || n == gene.name
    ensures multiset(r.endogenes + r.xenogenes) == multiset(g.endogenes + g.xenogenes) + multiset{gene.name}
    ensures r.xenotype == g.xenotype
  {
    if gene.endogene then g.(endogenes := g.endogenes + [gene.name])
    else g.(xenogenes := g.xenogenes + [gene.name])
  }

  /** The genotype after the checkbox is cleared: one copy is spliced out of that list. */
  function Unchecked(g: Genotype, gene: GeneInfo): Genotype {
    if gene.endogene then g.(endogenes := RemoveOne(g.endogenes, gene.name))
    else g.(xenogenes := RemoveOne(g.xenogenes, gene.name))
  }

  /** Checking then clearing a gene the list did not hold restores the genotype. */
  lemma CheckUncheck(g: Genotype, gene: GeneInfo)
    requires gene.name !in (if gene.endogene then g.endogenes else g.xenogenes)
    ensures Unchecked(Checked(g, gene), gene) == g
  {
    if gene.endogene {
      RemoveAppended(g.endogenes, gene.name);
    } else {
      RemoveAppended(g.xenogenes, gene.name);
    }
  }

  /** Checking then clearing any gene restores the genes held, as a multiset. */
  lemma CheckUncheckGenes(g: Genotype, gene: GeneInfo)
    ensures var r := Unchecked(Checked(g, gene), gene);
      multiset(r.endogenes + r.xenogenes) == multiset(g.endogenes + g.xenogenes)
  {
    var c := Checked(g, gene);
    if gene.endogene {
      RemoveOnePresent(c.endogenes, gene.name);
    } else {
      RemoveOnePresent(c.xenogenes, gene.name);
    }
  }

  // ---------------------------------------------------------------- conflict counters

  /**
   * The attributes a checkbox is built with: its id, its value, and the two comma lists
   * `exclusionTags` and `conflictingTraits`.
   */
  datatype Entry = Entry(id: string, value: string, exclusionTags: string, conflictingTraits: string)

  /**
   * A checkbox of the traits dialog or of the gene list: its attributes, the `conflicts`
   * counter kept as decimal text, and whether it is disabled.
   */
  datatype CheckBox = CheckBox(entry: Entry, conflicts: string, disabled: bool)

  /** A new checkbox: no conflicts, enabled. */
  function NewBox(e: Entry): (b: CheckBox)
    ensures Tallied(b, 0)
  {
    ShowIntZero(0);
    CheckBox(e, "0", false)
  }

  /** `setConflicts` on one other box: disabled, with one conflict more. */
  function Conflicted(b: CheckBox): CheckBox {
    b.(disabled := true, conflicts := AddStrInt(b.conflicts, 1))
  }

  /** `unsetConflicts` on one other box: one conflict less, enabled again when the counter reads "0". */
  function Released(b: CheckBox): CheckBox {
    var c := AddStrInt(b.conflicts, -1);
    b.(conflicts := c, disabled := if c == "0" then false else b.disabled)
  }

  /** Whether a handler acts on a box: not the box that changed, and in conflict with it. */
  predicate Touched(b: CheckBox, own: string, hit: Entry -> bool) {
    b.entry.id != own && hit(b.entry)
  }

  /** The boxes after `setConflicts` of the box `own`. */
  function SetAll(bs: seq<CheckBox>, own: string, hit: Entry -> bool): (r: seq<CheckBox>)
    ensures |r| == |bs|
    decreases |bs|
  {
    if |bs| == 0 then []
    else
      var b := bs[|bs| - 1];
      SetAll(bs[..|bs| - 1], own, hit) + [if Touched(b, own, hit) then Conflicted(b) else b]
  }

  /** The boxes after `unsetConflicts` of the box `own`. */
  function UnsetAll(bs: seq<CheckBox>, own: string, hit: Entry -> bool): (r: seq<CheckBox>)
    ensures |r| == |bs|
    decreases |bs|
  {
    if |bs| == 0 then []
    else
      var b := bs[|bs| - 1];
      UnsetAll(bs[..|bs| - 1], own, hit) + [if Touched(b, own, hit) then Released(b) else b]
  }

  lemma {:induction false} SetAllAt(bs: seq<CheckBox>, own: string, hit: Entry -> bool, k: nat)
    requires k < |bs|
    ensures SetAll(bs, own, hit)[k] == if Touched(bs[k], own, hit) then Conflicted(bs[k]) else bs[k]
    decreases |bs|
  {
    if k < |bs| - 1 {
      SetAllAt(bs[..|bs| - 1], own, hit, k);
    }
  }

  lemma {:induction false} UnsetAllAt(bs: seq<CheckBox>, own: string, hit: Entry -> bool, k: nat)
    requires k < |bs|
    ensures UnsetAll(bs, own, hit)[k] == if Touched(bs[k], own, hit) then Released(bs[k]) else bs[k]
    decreases |bs|
  {
    if k < |bs| - 1 {
      UnsetAllAt(bs[..|bs| - 1], own, hit, k);
    }
  }

  /** The counter of a box reads `n` as `toString` writes it, and the box is disabled exactly when n > 0. */
  predicate Tallied(b: CheckBox, n: int) {
    b.conflicts == ShowInt(n) && (b.disabled <==> n > 0)
  }

  lemma ConflictedTallied(b: CheckBox, n: int)
    requires Tallied(b, n) && n >= 0
    ensures Tallied(Conflicted(b), n + 1)
  {
    AddStrIntShift(n, 1);
  }

  lemma ReleasedTallied(b: CheckBox, n: int)
    requires Tallied(b, n) && n >= 1
    ensures Tallied(Released(b), n - 1)
  {
    AddStrIntShift(n, -1);
    ShowIntZero(n - 1);
  }

  lemma ReleaseUndoes(b: CheckBox, n: int)
    requires Tallied(b, n) && n >= 0
    ensures Released(Conflicted(b)) == b
  {
    AddStrIntInverse(n, 1);
    AddStrIntShift(n, 1);
    ShowIntZero(n);
  }

  lemma SetKeepsTally(bs: seq<CheckBox>, own: string, hit: Entry -> bool, k: nat, n: int)
    requires k < |bs| && n >= 0 && Tallied(bs[k], n)
    ensures Tallied(SetAll(bs, own, hit)[k], if Touched(bs[k], own, hit) then n + 1 else n)
  {
    SetAllAt(bs, own, hit, k);
    ConflictedTallied(bs[k], n);
  }

  lemma UnsetKeepsTally(bs: seq<CheckBox>, own: string, hit: Entry -> bool, k: nat, n: int)
    requires k < |bs| && Tallied(bs[k], n) && (Touched(bs[k], own, hit) ==> n >= 1)
    ensures Tallied(UnsetAll(bs, own, hit)[k], if Touched(bs[k], own, hit) then n - 1 else n)
  {
    UnsetAllAt(bs, own, hit, k);
    if Touched(bs[k], own, hit) {
      ReleasedTallied(bs[k], n);
    }
  }

  /** `setConflicts` adds one to the tally of each box it touches and keeps every box tallied. */
  lemma SetKeepsTallies(bs: seq<CheckBox>, own: string, hit: Entry -> bool, ns: seq<int>)
    requires |ns| == |bs|
    requires forall k :: 0 <= k < |bs| ==> ns[k] >= 0 && Tallied(bs[k], ns[k])
    ensures forall k :: 0 <= k < |bs| ==>
      Tallied(SetAll(bs, own, hit)[k], if Touched(bs[k], own, hit) then ns[k] + 1 else ns[k])
  {
    forall k | 0 <= k < |bs|
      ensures Tallied(SetAll(bs, own, hit)[k], if Touched(bs[k], own, hit) then ns[k] + 1 else ns[k])
    {
      SetKeepsTally(bs, own, hit, k, ns[k]);
    }
  }

  /** `unsetConflicts` takes one from the tally of each box it touches and keeps every box tallied. */
  lemma UnsetKeepsTallies(bs: seq<CheckBox>, own: string, hit: Entry -> bool, ns: seq<int>)
    requires |ns| == |bs|
    requires forall k :: 0 <= k < |bs| ==> Tallied(bs[k], ns[k])
    requires forall k :: 0 <= k < |bs| && Touched(bs[k], own, hit) ==> ns[k] >= 1
    ensures forall k :: 0 <= k < |bs| ==>
      Tallied(UnsetAll(bs, own, hit)[k], if Touched(bs[k], own, hit) then ns[k] - 1 else ns[k])
  {
    forall k | 0 <= k < |bs|
      ensures Tallied(UnsetAll(bs, own, hit)[k], if Touched(bs[k], own, hit) then ns[k] - 1 else ns[k])
    {
      UnsetKeepsTally(bs, own, hit, k, ns[k]);
    }
  }

  /** Clearing a box right after checking it leaves every counter and every box as it was. */
  lemma UnsetUndoesSet(bs: seq<CheckBox>, own: string, hit: Entry -> bool, ns: seq<int>)
    requires |ns| == |bs|
    requires forall k :: 0 <= k < |bs| ==> ns[k] >= 0 && Tallied(bs[k], ns[k])
    ensures UnsetAll(SetAll(bs, own, hit), own, hit) == bs
  {
    var raised := SetAll(bs, own, hit);
    forall k | 0 <= k < |bs| ensures UnsetAll(raised, own, hit)[k] == bs[k] {
      SetAllAt(bs, own, hit, k);
      UnsetAllAt(raised, own, hit, k);
      if Touched(bs[k], own, hit) {
        ReleaseUndoes(bs[k], ns[k]);
      }
    }
  }

  // ---------------------------------------------------------------- traits dialog

  /** The fields of a trait the dialog reads. */
  datatype TraitInfo = TraitInfo(name: string, exclusionTags: seq<string>, conflictingTraits: seq<string>)

  /** `s.lastIndexOf(c)`: the last index holding `c`, or -1. */
  function LastIndexOf(s: string, c: char): (r: int)
    ensures -1 <= r < |s|
    ensures r == -1 <==> c !in s
    ensures 0 <= r ==> s[r] == c
    ensures 0 <= r ==> c !in s[r + 1..]
    decreases |s|
  {
    if |s| == 0 then -1
    else if s[|s| - 1] == c then |s| - 1
    else
      assert s == s[..|s| - 1] + [s[|s| - 1]];
      var r := LastIndexOf(s[..|s| - 1], c);
      assert 0 <= r ==> s[r + 1..] == s[..|s| - 1][r + 1..] + [s[|s| - 1]];
      r
  }

  /** Text after the last occurrence does not move it. */
  lemma {:induction false} LastIndexOfSkip(u: string, w: string, c: char)
    requires c !in w
    ensures LastIndexOf(u + w, c) == LastIndexOf(u, c)
    decreases |w|
  {
    if |w| == 0 {
      assert u + w == u;
    } else {
      assert (u + w)[..|u + w| - 1] == u + w[..|w| - 1];
      assert (u + w)[|u + w| - 1] == w[|w| - 1];
      LastIndexOfSkip(u, w[..|w| - 1], c);
    }
  }

  /** `s.substring(0, end)`: an end below 0 reads as 0, one past the length as the length. */
  function Head(s: string, end: int): string {
    if end <= 0 then "" else if end >= |s| then s else s[..end]
  }

  /** `b.value.substring(0, b.value.lastIndexOf(":"))`: the trait a degree's box belongs to. */
  function TraitOfValue(value: string): string {
    Head(value, LastIndexOf(value, ':'))
  }

  /** The box the dialog builds for one degree of a trait. */
  function TraitEntry(t: TraitInfo, degKey: string): Entry {
    var value := t.name + ":" + degKey;
    Entry("traitLabel" + value, value, Join(t.exclusionTags, ','), Join(t.conflictingTraits, ','))
  }

  /** The trait name is read back from a degree's value, as long as the degree key has no ":". */
  lemma TraitOfDegree(name: string, degKey: string)
    requires ':' !in degKey
    ensures TraitOfValue(name + ":" + degKey) == name
  {
    var u := name + ":";
    LastIndexOfSkip(u, degKey, ':');
    assert u[..|u| - 1] == name;
  }

  /**
   * `hasConflict(a, b)` of the traits dialog: the two share an exclusion tag or a conflicting
   * trait, one names the other's trait as conflicting, or both are degrees of one trait.
   */
  function TraitConflict(a: TraitInfo, b: Entry): (r: bool)
    ensures r <==>
      (exists tag :: tag in a.exclusionTags && tag in ParseCommaList(b.exclusionTags))
      || (exists name :: name in a.conflictingTraits && name in ParseCommaList(b.conflictingTraits))
      || a.name in ParseCommaList(b.conflictingTraits)
      || TraitOfValue(b.value) in a.conflictingTraits
      || a.name == TraitOfValue(b.value)
  {
    var bExclusion := ParseCommaList(b.exclusionTags);
    var bConflicting := ParseCommaList(b.conflictingTraits);
    var bName := TraitOfValue(b.value);
    AnyMatch(a.exclusionTags, bExclusion)
    || AnyMatch(a.conflictingTraits, bConflicting)
    || a.name in bConflicting
    || bName in a.conflictingTraits
    || a.name == bName
  }

  function TraitHit(t: TraitInfo): Entry -> bool {
    e => TraitConflict(t, e)
  }

  /** Two degrees of one trait always conflict. */
  lemma SameTraitConflicts(t: TraitInfo, degKey: string)
    requires ':' !in degKey
    ensures TraitConflict(t, TraitEntry(t, degKey))
  {
    TraitOfDegree(t.name, degKey);
  }

  predicate CleanTags(tags: seq<string>) {
    forall i :: 0 <= i < |tags| ==> CleanItem(tags[i])
  }

  /** With clean tag lists, trait `a` conflicts with a degree of `b` exactly when `b` conflicts with one of `a`. */
  lemma TraitConflictSymmetric(a: TraitInfo, aKey: string, b: TraitInfo, bKey: string)
    requires ':' !in aKey && ':' !in bKey
    requires CleanTags(a.exclusionTags) && CleanTags(a.conflictingTraits)
    requires CleanTags(b.exclusionTags) && CleanTags(b.conflictingTraits)
    ensures TraitConflict(a, TraitEntry(b, bKey)) == TraitConflict(b, TraitEntry(a, aKey))
  {
    TraitOfDegree(a.name, aKey);
    TraitOfDegree(b.name, bKey);
    ParseCommaListJoin(a.exclusionTags);
    ParseCommaListJoin(a.conflictingTraits);
    ParseCommaListJoin(b.exclusionTags);
    ParseCommaListJoin(b.conflictingTraits);
    AnyMatchSymmetric(a.exclusionTags, b.exclusionTags);
    AnyMatchSymmetric(a.conflictingTraits, b.conflictingTraits);
  }

  /**
   * `setConflicts` of a trait degree, over the boxes of the dialog; `hasConflict` is the
   * dialog's `hasConflict` with the degree's trait as its first argument (`TraitHit`).
   */
  method SetTraitConflicts(boxes: array<CheckBox>, own: string, hasConflict: Entry -> bool)
    modifies boxes
    ensures boxes[..] == SetAll(old(boxes[..]), own, hasConflict)
  {
    ghost var before := boxes[..];
    for k := 0 to boxes.Length
      invariant forall j :: 0 <= j < k ==> boxes[j] == SetAll(before, own, hasConflict)[j]
      invariant forall j :: k <= j < boxes.Length ==> boxes[j] == before[j]
    {
      var other := boxes[k];
      SetAllAt(before, own, hasConflict, k);
      if other.entry.id != own && hasConflict(other.entry) {
        other := other.(disabled := true);
        var prevConflicts := other.conflicts;
        other := other.(conflicts := AddStrInt(prevConflicts, 1));
        boxes[k] := other;
      }
    }
    assert boxes[..] == SetAll(before, own, hasConflict);
  }

  /** `unsetConflicts` of a trait degree. */
  method UnsetTraitConflicts(boxes: array<CheckBox>, own: string, hasConflict: Entry -> bool)
    modifies boxes
    ensures boxes[..] == UnsetAll(old(boxes[..]), own, hasConflict)
  {
    ghost var before := boxes[..];
    for k := 0 to boxes.Length
      invariant forall j :: 0 <= j < k ==> boxes[j] == UnsetAll(before, own, hasConflict)[j]
      invariant forall j :: k <= j < boxes.Length ==> boxes[j] == before[j]
    {
      var other := boxes[k];
      UnsetAllAt(before, own, hasConflict, k);
      if other.entry.id != own && hasConflict(other.entry) {
        var newConflictCount := AddStrInt(other.conflicts, -1);
        other := other.(conflicts := newConflictCount);
        if newConflictCount == "0" {
          other := other.(disabled := false);
        }
        assert other == Released(boxes[k]);
        boxes[k] := other;
      }
      assert boxes[k] == UnsetAll(before, own, hasConflict)[k];
    }
    assert boxes[..] == UnsetAll(before, own, hasConflict);
  }

  // ---------------------------------------------------------------- gene list

  /** The box `buildGeneCheckbox` makes for a gene. */
  function GeneEntry(gene: GeneInfo, id: string): Entry {
    Entry(id, gene.name, Join(gene.exclusionTags.GetOr([]), ','), "")
  }

  /** `hasConflict(a, b)` of the gene list: a shared exclusion tag. */
  function GeneConflict(a: GeneInfo, b: Entry): (r: bool)
    ensures r <==> exists tag :: tag in a.exclusionTags.GetOr([]) && tag in ParseCommaList(b.exclusionTags)
  {
    AnyMatch(a.exclusionTags.GetOr([]), ParseCommaList(b.exclusionTags))
  }

  function GeneHit(gene: GeneInfo): Entry -> bool {
    e => GeneConflict(gene, e)
  }

  /** With clean tags, gene conflicts go both ways. */
  lemma GeneConflictSymmetric(a: GeneInfo, aId: string, b: GeneInfo, bId: string)
    requires CleanTags(a.exclusionTags.GetOr([])) && CleanTags(b.exclusionTags.GetOr([]))
    ensures GeneConflict(a, GeneEntry(b, bId)) == GeneConflict(b, GeneEntry(a, aId))
  {
    ParseCommaListJoin(a.exclusionTags.GetOr([]));
    ParseCommaListJoin(b.exclusionTags.GetOr([]));
    AnyMatchSymmetric(a.exclusionTags.GetOr([]), b.exclusionTags.GetOr([]));
  }

  /**
   * `setConflicts` of a gene: the counter first, then the box is disabled if it was not;
   * `hasConflict` is the list's `hasConflict` with the gene as its first argument (`GeneHit`).
   */
  method SetGeneConflicts(boxes: array<CheckBox>, own: string, hasConflict: Entry -> bool)
    modifies boxes
    ensures boxes[..] == SetAll(old(boxes[..]), own, hasConflict)
  {
    ghost var before := boxes[..];
    for k := 0 to boxes.Length
      invariant forall j :: 0 <= j < k ==> boxes[j] == SetAll(before, own, hasConflict)[j]
      invariant forall j :: k <= j < boxes.Length ==> boxes[j] == before[j]
    {
      var other := boxes[k];
      SetAllAt(before, own, hasConflict, k);
      if other.entry.id != own && hasConflict(other.entry) {
        var prevConflicts := other.conflicts;
        other := other.(conflicts := AddStrInt(prevConflicts, 1));
        if !other.disabled {
          other := other.(disabled := true);
        }
        boxes[k] := other;
      }
    }
    assert boxes[..] == SetAll(before, own, hasConflict);
  }

  /** `unsetConflicts` of a gene. */
  method UnsetGeneConflicts(boxes: array<CheckBox>, own: string, hasConflict: Entry -> bool)
    modifies boxes
    ensures boxes[..] == UnsetAll(old(boxes[..]), own, hasConflict)
  {
    ghost var before := boxes[..];
    for k := 0 to boxes.Length
      invariant forall j :: 0 <= j < k ==> boxes[j] == UnsetAll(before, own, hasConflict)[j]
      invariant forall j :: k <= j < boxes.Length ==> boxes[j] == before[j]
    {
      var other := boxes[k];
      UnsetAllAt(before, own, hasConflict, k);
      if other.entry.id != own && hasConflict(other.entry) {
        var newConflictCount := AddStrInt(other.conflicts, -1);
        other := other.(conflicts := newConflictCount);
        if newConflictCount == "0" {
          other := other.(disabled := false);
        }
        assert other == Released(boxes[k]);
        boxes[k] := other;
      }
      assert boxes[k] == UnsetAll(before, own, hasConflict)[k];
    }
    assert boxes[..] == UnsetAll(before, own, hasConflict);
  }

  // ---------------------------------------------------------------- categories

  /** `gene.displayCategory || "Misc"` */
  function CategoryOf(gene: GeneInfo): string {
    if gene.displayCategory.Some? && gene.displayCategory.value != "" then gene.displayCategory.value
    else "Misc"
  }

  /** A `Map` from category names to gene lists, in the order the names were first set. */
  type Categories = seq<(string, seq<GeneInfo>)>

  /** Where `categories.get(name)` finds its list, or -1 for `undefined`. */
  function KeyIndex(cats: Categories, key: string): (r: int)
    ensures -1 <= r < |cats|
    ensures r == -1 <==> forall i :: 0 <= i < |cats| ==> cats[i].0 != key
    ensures 0 <= r ==> cats[r].0 == key
    decreases |cats|
  {
    if |cats| == 0 then -1
    else if cats[|cats| - 1].0 == key then |cats| - 1
    else
      assert forall i :: 0 <= i < |cats| - 1 ==> cats[i] == cats[..|cats| - 1][i];
      KeyIndex(cats[..|cats| - 1], key)
  }

  /** The map after one more gene: a new list for a new category, else the gene joins its list. */
  function Insert(cats: Categories, gene: GeneInfo): Categories {
    var key := CategoryOf(gene);
    var i := KeyIndex(cats, key);
    if i < 0 then cats + [(key, [gene])] else cats[i := (key, cats[i].1 + [gene])]
  }

  /** The map the grouping loop builds. */
  function Grouped(genes: seq<GeneInfo>): Categories
    decreases |genes|
  {
    if |genes| == 0 then [] else Insert(Grouped(genes[..|genes| - 1]), genes[|genes| - 1])
  }

  /** The genes of one category, in their order in the table. */
  function InCategory(genes: seq<GeneInfo>, key: string): seq<GeneInfo>
    decreases |genes|
  {
    if |genes| == 0 then []
    else
      var last := genes[|genes| - 1];
      InCategory(genes[..|genes| - 1], key) + (if CategoryOf(last) == key then [last] else [])
  }

  /**
   * What the grouping promises: the category names are distinct, every gene's category is
   * one of them, and each list holds exactly the genes of its category, in table order.
   */
  predicate WellGrouped(cats: Categories, genes: seq<GeneInfo>) {
    (forall i, j :: 0 <= i < j < |cats| ==> cats[i].0 != cats[j].0)
    && (forall i :: 0 <= i < |cats| ==> cats[i].1 == InCategory(genes, cats[i].0))
    && (forall k :: 0 <= k < |genes| ==> KeyIndex(cats, CategoryOf(genes[k])) >= 0)
  }

  lemma {:induction false} InCategoryNone(genes: seq<GeneInfo>, key: string)
    requires forall k :: 0 <= k < |genes| ==> CategoryOf(genes[k]) != key
    ensures InCategory(genes, key) == []
    decreases |genes|
  {
    if |genes| > 0 {
      InCategoryNone(genes[..|genes| - 1], key);
    }
  }

  /** A new category's list holds the new gene alone; the old lists keep their genes. */
  lemma InsertNewLists(cats: Categories, init: seq<GeneInfo>, gene: GeneInfo)
    requires WellGrouped(cats, init)
    requires KeyIndex(cats, CategoryOf(gene)) < 0
    ensures var r := Insert(cats, gene);
      forall i :: 0 <= i < |r| ==> r[i].1 == InCategory(init + [gene], r[i].0)
  {
    var genes := init + [gene];
    var r := Insert(cats, gene);
    assert genes[..|genes| - 1] == init;
    InCategoryNone(init, CategoryOf(gene));
    forall i | 0 <= i < |r| ensures r[i].1 == InCategory(genes, r[i].0) {
      if i < |cats| {
        assert r[i] == cats[i];
      }
    }
  }

  /** After a new category, every gene's category is still found. */
  lemma InsertNewCovers(cats: Categories, init: seq<GeneInfo>, gene: GeneInfo)
    requires WellGrouped(cats, init)
    requires KeyIndex(cats, CategoryOf(gene)) < 0
    ensures var r := Insert(cats, gene); var genes := init + [gene];
      forall k :: 0 <= k < |genes| ==> KeyIndex(r, CategoryOf(genes[k])) >= 0
  {
    var genes := init + [gene];
    var r := Insert(cats, gene);
    forall k | 0 <= k < |genes| ensures KeyIndex(r, CategoryOf(genes[k])) >= 0 {
      if k < |init| {
        assert genes[k] == init[k];
        var j := KeyIndex(cats, CategoryOf(init[k]));
        assert r[j].0 == CategoryOf(init[k]);
      } else {
        assert r[|cats|].0 == CategoryOf(gene);
      }
    }
  }

  lemma InsertNew(cats: Categories, init: seq<GeneInfo>, gene: GeneInfo)
    requires WellGrouped(cats, init)
    requires KeyIndex(cats, CategoryOf(gene)) < 0
    ensures WellGrouped(Insert(cats, gene), init + [gene])
  {
    InsertNewLists(cats, init, gene);
    InsertNewCovers(cats, init, gene);
  }

  lemma InsertOld(cats: Categories, init: seq<GeneInfo>, gene: GeneInfo)
    requires WellGrouped(cats, init)
    requires KeyIndex(cats, CategoryOf(gene)) >= 0
    ensures WellGrouped(Insert(cats, gene), init + [gene])
  {
    var genes := init + [gene];
    var r := Insert(cats, gene);
    var at := KeyIndex(cats, CategoryOf(gene));
    assert genes[..|genes| - 1] == init;
    forall i | 0 <= i < |r| ensures r[i].0 == cats[i].0 {
    }
    forall k | 0 <= k < |genes| ensures KeyIndex(r, CategoryOf(genes[k])) >= 0 {
      if k < |init| {
        assert genes[k] == init[k];
        var j := KeyIndex(cats, CategoryOf(init[k]));
        assert r[j].0 == CategoryOf(init[k]);
      } else {
        assert r[at].0 == CategoryOf(gene);
      }
    }
  }

  /** The grouping keeps its promise for every gene table. */
  lemma {:induction false} GroupedWell(genes: seq<GeneInfo>)
    ensures WellGrouped(Grouped(genes), genes)
    decreases |genes|
  {
    if |genes| > 0 {
      var init := genes[..|genes| - 1];
      var gene := genes[|genes| - 1];
      GroupedWell(init);
      assert genes == init + [gene];
      if KeyIndex(Grouped(init), CategoryOf(gene)) < 0 {
        InsertNew(Grouped(init), init, gene);
      } else {
        InsertOld(Grouped(init), init, gene);
      }
    }
  }

  /** The first loop of `buildGenesList`: genes sorted into their categories. */
  method GroupByCategory(geneList: seq<GeneInfo>) returns (categories: Categories)
    ensures categories == Grouped(geneList)
  {
    categories := [];
    for i := 0 to |geneList|
      invariant categories == Grouped(geneList[..i])
    {
      var gene := geneList[i];
      var catName := CategoryOf(gene);
      var at := KeyIndex(categories, catName);
      if at < 0 {
        categories := categories + [(catName, [gene])];
      } else {
        categories := categories[at := (catName, categories[at].1 + [gene])];
      }
      assert geneList[..i + 1][..i] == geneList[..i];
    }
    assert geneList[..|geneList|] == geneList;
  }

  // ---------------------------------------------------------------- the pawn

  /** The biological and chronological ages, in ticks. */
  datatype Ages = Ages(bio: JsNum, chron: JsNum) {
    /** What both handlers keep: the chronological age is not below the biological one. */
    predicate Ordered() {
      !chron.Below(bio)
    }
  }

  /** A year of ticks, as the page counts it. */
  const TicksPerYear := 3600000

  /** The ages after the biological age is set to `bio`: the chronological age is raised to meet it. */
  function WithBio(ages: Ages, bio: JsNum): (r: Ages)
    ensures r.bio == bio
    ensures r.Ordered()
    ensures r.chron == ages.chron || r.chron == bio
    ensures ages.Ordered() && ages.bio == bio ==> r == ages
    ensures r.bio.Num? && r.chron.Num? ==> r.chron.v >= r.bio.v
  {
    if ages.chron.Below(bio) then Ages(bio, bio) else Ages(bio, ages.chron)
  }

  /** The ages after the chronological age is set to `chron`: the biological age is lowered to meet it. */
  function WithChron(ages: Ages, chron: JsNum): (r: Ages)
    ensures r.chron == chron
    ensures r.Ordered()
    ensures r.bio == ages.bio || r.bio == chron
    ensures ages.Ordered() && ages.chron == chron ==> r == ages
    ensures r.bio.Num? && r.chron.Num? ==> r.chron.v >= r.bio.v
  {
    if chron.Below(ages.bio) then Ages(chron, chron) else Ages(ages.bio, chron)
  }

  /** The fields of a `Pawn` that the rules and the handlers below read and write. */
  class Pawn {
    var tickAgeBio: JsNum
    var tickAgeChron: JsNum
    var genotype: Genotype
    var skills: Skills
    /** Trait name to degree. */
    var traits: map<string, JsNum>

    /** The `change` handler of the biological age input; the text copied to the other input, if any. */
    method OnBioAgeChange(text: string) returns (chronText: Option<string>)
      modifies this`tickAgeBio, this`tickAgeChron
      ensures Ages(tickAgeBio, tickAgeChron) == WithBio(Ages(old(tickAgeBio), old(tickAgeChron)), JsParseInt(text, 0).Times(TicksPerYear))
      ensures chronText == if old(tickAgeChron).Below(tickAgeBio) then Some(text) else None
    {
      tickAgeBio := JsParseInt(text, 0).Times(TicksPerYear);
      chronText := None;
      if tickAgeChron.Below(tickAgeBio) {
        tickAgeChron := tickAgeBio;
        chronText := Some(text);
      }
    }

    /** The `change` handler of the chronological age input. */
    method OnChronAgeChange(text: string) returns (bioText: Option<string>)
      modifies this`tickAgeBio, this`tickAgeChron
      ensures Ages(tickAgeBio, tickAgeChron) == WithChron(Ages(old(tickAgeBio), old(tickAgeChron)), JsParseInt(text, 0).Times(TicksPerYear))
      ensures bioText == if tickAgeChron.Below(old(tickAgeBio)) then Some(text) else None
    {
      tickAgeChron := JsParseInt(text, 0).Times(TicksPerYear);
      bioText := None;
      if tickAgeChron.Below(tickAgeBio) {
        tickAgeBio := tickAgeChron;
        bioText := Some(text);
      }
    }

    /** The `change` handler of a skill's number input. */
    method OnSkillChange(k: Skill, text: string)
      modifies this`skills
      ensures skills == old(skills).(points := old(skills).points[k := JsParseInt(text, 0)])
    {
      skills := skills.(points := skills.points[k := JsParseInt(text, 0)]);
    }

    /** The `click` handler of a skill's passion icon. */
    method OnPassionClick(k: Skill)
      modifies this`skills
      ensures skills == old(skills).(flames := old(skills).flames[k := NextPassion(old(skills).Flames(k))])
    {
      skills := skills.(flames := skills.flames[k := NextPassion(skills.Flames(k))]);
    }

    /** The `change` handler of a trait degree's checkbox. */
    method OnTraitChange(boxes: array<CheckBox>, t: TraitInfo, degKey: string, checked: bool)
      modifies this`traits, boxes
      ensures checked ==> boxes[..] == SetAll(old(boxes[..]), TraitEntry(t, degKey).id, TraitHit(t))
      ensures checked ==> traits == old(traits)[t.name := JsParseInt(degKey, 0)]
      ensures !checked ==> boxes[..] == UnsetAll(old(boxes[..]), TraitEntry(t, degKey).id, TraitHit(t))
      ensures !checked ==> traits == old(traits) - {t.name}
    {
      var own := TraitEntry(t, degKey).id;
      if checked {
        SetTraitConflicts(boxes, own, TraitHit(t));
        traits := traits[t.name := JsParseInt(degKey, 0)];
      } else {
        UnsetTraitConflicts(boxes, own, TraitHit(t));
        traits := traits - {t.name};
      }
    }

    /** The gene lists and the counters of the `change` handler of a gene's checkbox. */
    method OnGeneChange(boxes: array<CheckBox>, gene: GeneInfo, own: string, checked: bool)
      modifies this`genotype, boxes
      ensures checked ==> genotype == Checked(old(genotype), gene)
      ensures checked ==> boxes[..] == SetAll(old(boxes[..]), own, GeneHit(gene))
      ensures !checked ==> genotype == Unchecked(old(genotype), gene)
      ensures !checked ==> boxes[..] == UnsetAll(old(boxes[..]), own, GeneHit(gene))
    {
      if checked {
        if gene.endogene {
          genotype := genotype.(endogenes := genotype.endogenes + [gene.name]);
        } else {
          genotype := genotype.(xenogenes := genotype.xenogenes + [gene.name]);
        }
        SetGeneConflicts(boxes, own, GeneHit(gene));
      } else {
        if gene.endogene {
          var index := IndexOf(genotype.endogenes, gene.name);
          genotype := genotype.(endogenes := SpliceOne(genotype.endogenes, index));
        } else {
          var index := IndexOf(genotype.xenogenes, gene.name);
          genotype := genotype.(xenogenes := SpliceOne(genotype.xenogenes, index));
        }
        UnsetGeneConflicts(boxes, own, GeneHit(gene));
      }
    }
  }
}
