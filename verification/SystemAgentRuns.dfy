/** The merged listing of system agent runs: three sources, each already cut to its newest rows. */
module SystemAgentRuns {
  import opened Wrappers

  const DEFAULT_LIMIT := 50
  const MAX_LIMIT := 200

  /** A listed run; the columns that are only copied are kept together. */
  datatype Run = Run(kind: string, agentType: string, columns: seq<string>, created: int)

  datatype Fold = Fold(columns: seq<string>, foldedAt: int)

  function FromFold(f: Fold): Run {
    Run("refinery_fold", "_refinery", f.columns, f.foldedAt)
  }

  function FromFolds(fs: seq<Fold>): seq<Run> {
    seq(|fs|, i requires 0 <= i < |fs| => FromFold(fs[i]))
  }

  /** A precision of times: EXACT, or coarser, such as the nanoseconds of a second. */
  type Unit = u: int | u >= 1 witness 1

  const EXACT: Unit := 1

  function Time(r: Run, unit: Unit): int {
    r.created / unit
  }

  ghost predicate NewestFirst(rs: seq<Run>, unit: Unit) {
    forall i, j | 0 <= i < j < |rs| :: Time(rs[i], unit) >= Time(rs[j], unit)
  }

  /** What the listing leaves out is no newer than what it shows. */
  ghost predicate NoneNewer(left: multiset<Run>, shown: seq<Run>, unit: Unit) {
    forall r, i | r in left && 0 <= i < |shown| :: Time(r, unit) <= Time(shown[i], unit)
  }

  /**
    The newest rows of a table, at most limit of them, newest first; among times that are equal at the
    given precision any may be taken.
   */
  ghost predicate IsNewest(rs: seq<Run>, table: seq<Run>, limit: nat, unit: Unit) {
    && NewestFirst(rs, unit)
    && multiset(rs) <= multiset(table)
    && |rs| == (if |table| < limit then |table| else limit)
    && NoneNewer(multiset(table) - multiset(rs), rs, unit)
  }

  function Limit(param: Option<int>): (limit: nat) {
    match param
    case None => DEFAULT_LIMIT
    case Some(p) => if p < 1 then 1 else if p > MAX_LIMIT then MAX_LIMIT else p
  }

  /** The library sort: some newest-first arrangement of the items; that of equal times is not promised. */
  method SortNewestFirst(items: seq<Run>) returns (sorted: seq<Run>)
    ensures NewestFirst(sorted, EXACT) && multiset(sorted) == multiset(items)
  {
    sorted := [];
    for i := 0 to |items|
      invariant NewestFirst(sorted, EXACT) && multiset(sorted) == multiset(items[..i])
    {
      hide NewestFirst;
      sorted := Insert(sorted, items[i]);
      assert items[..i + 1] == items[..i] + [items[i]];
    }
    assert items[..|items|] == items;
  }

  method Insert(rs: seq<Run>, r: Run) returns (more: seq<Run>)
    requires NewestFirst(rs, EXACT)
    ensures NewestFirst(more, EXACT) && multiset(more) == multiset(rs) + multiset{r}
  {
    var at := 0;
    while at < |rs| && rs[at].created > r.created
      invariant at <= |rs|
      invariant forall j | 0 <= j < at :: rs[j].created > r.created
    {
      at := at + 1;
    }
    more := rs[..at] + [r] + rs[at..];
    Inserted(rs, at, r);
  }

  lemma Inserted(rs: seq<Run>, at: nat, r: Run)
    requires at <= |rs| && NewestFirst(rs, EXACT)
    requires forall j | 0 <= j < at :: rs[j].created >= r.created
    requires at < |rs| ==> rs[at].created <= r.created
    ensures NewestFirst(rs[..at] + [r] + rs[at..], EXACT)
    ensures multiset(rs[..at] + [r] + rs[at..]) == multiset(rs) + multiset{r}
  {
    assert rs == rs[..at] + rs[at..];
  }

  // ----- the listing in terms of times -----

  function Times(rs: seq<Run>): seq<int> {
    seq(|rs|, i requires 0 <= i < |rs| => rs[i].created)
  }

  function FoldTimes(fs: seq<Fold>): seq<int> {
    seq(|fs|, i requires 0 <= i < |fs| => fs[i].foldedAt)
  }

  /** The newest of the times, newest first, at most limit of them. */
  ghost predicate NewestTimes(listed: seq<int>, all: multiset<int>, limit: int) {
    && (forall i, j | 0 <= i < j < |listed| :: listed[i] >= listed[j])
    && multiset(listed) <= all
    && |listed| == (if |all| < limit then |all| else limit)
    && forall time, i | time in all - multiset(listed) && 0 <= i < |listed| :: time <= listed[i]
  }

  /** The row a fold is listed as: its own columns under the kind of folds, at the time it was folded at. */
  ghost predicate ShowsFold(r: Run, f: Fold) {
    r.kind == "refinery_fold" && r.agentType == "_refinery" && r.columns == f.columns && r.created == f.foldedAt
  }

  /** What the handler promises, told from what the sources gave and the parameter alone. */
  ghost predicate Lists(items: seq<Run>, param: Option<int>, sessions: seq<Run>, rotations: seq<Run>,
                        folds: seq<Fold>)
  {
    var times := multiset(Times(sessions)) + multiset(Times(rotations)) + multiset(FoldTimes(folds));
    var limit := match param
                 case None => 50
                 case Some(p) => if p <= 1 then 1 else if p >= 200 then 200 else p;
    && NewestTimes(Times(items), times, limit)
    && (forall r | r in items :: r in sessions || r in rotations || exists f | f in folds :: ShowsFold(r, f))
    && (forall f | f in folds ::
          (exists r | r in items :: ShowsFold(r, f)) || forall r | r in items :: f.foldedAt <= r.created)
    && (forall r | r in sessions + rotations :: r in items || forall q | q in items :: r.created <= q.created)
  }

  lemma TakeOne(a: seq<Run>, i: nat)
    requires i < |a|
    ensures var rest := a[..i] + a[i + 1..];
            && multiset(rest) == multiset(a) - multiset{a[i]}
            && multiset(Times(a)) == multiset(Times(rest)) + multiset{a[i].created}
  {
    var rest := a[..i] + a[i + 1..];
    assert a == a[..i] + [a[i]] + a[i + 1..];
    assert Times(rest) == Times(a[..i]) + Times(a[i + 1..]);
    assert Times(a) == Times(a[..i]) + [a[i].created] + Times(a[i + 1..]);
  }

  /** Rearranging the rows rearranges the times. */
  lemma {:induction false} TimesPermute(a: seq<Run>, b: seq<Run>)
    requires multiset(a) == multiset(b)
    ensures multiset(Times(a)) == multiset(Times(b))
    decreases |a|
  {
    hide Times;
    if a == [] {
      assert |multiset(b)| == 0;
    } else {
      assert a[0] in multiset(b);
      var i :| 0 <= i < |b| && b[i] == a[0];
      TakeOne(a, 0);
      TakeOne(b, i);
      TimesPermute(a[..0] + a[1..], b[..i] + b[i + 1..]);
    }
  }

  /** Rows that hold what is left of a table. */
  lemma {:induction false} Remainder(m: multiset<Run>) returns (rs: seq<Run>)
    ensures multiset(rs) == m
    decreases |m|
  {
    if m == multiset{} {
      rs := [];
    } else {
      var r :| r in m;
      rs := Remainder(m - multiset{r});
      rs := rs + [r];
    }
  }

  lemma TimesAppend(a: seq<Run>, b: seq<Run>)
    ensures Times(a + b) == Times(a) + Times(b)
  {
  }

  lemma TimesFall(rs: seq<Run>)
    requires NewestFirst(rs, EXACT)
    ensures forall i, j | 0 <= i < j < |rs| :: Times(rs)[i] >= Times(rs)[j]
  {
    forall i, j | 0 <= i < j < |rs|
      ensures Times(rs)[i] >= Times(rs)[j]
    {
      assert Time(rs[i], EXACT) >= Time(rs[j], EXACT);
    }
  }

  lemma TimesLeft(rest: seq<Run>, rs: seq<Run>)
    requires NoneNewer(multiset(rest), rs, EXACT)
    ensures forall time, i | time in multiset(Times(rest)) && 0 <= i < |rs| :: time <= Times(rs)[i]
  {
    forall time, i | time in multiset(Times(rest)) && 0 <= i < |rs|
      ensures time <= Times(rs)[i]
    {
      assert time in Times(rest);
      var k :| 0 <= k < |rest| && Times(rest)[k] == time;
      assert rest[k] in multiset(rest);
      assert Time(rest[k], EXACT) <= Time(rs[i], EXACT);
    }
  }

  lemma NewestByTime(rs: seq<Run>, table: seq<Run>, limit: nat)
    requires IsNewest(rs, table, limit, EXACT)
    ensures NewestTimes(Times(rs), multiset(Times(table)), limit)
  {
    var rest := Remainder(multiset(table) - multiset(rs));
    assert multiset(rs + rest) == multiset(table);
    TimesPermute(rs + rest, table);
    TimesAppend(rs, rest);
    TimesFall(rs);
    TimesLeft(rest, rs);
    assert |Times(table)| == |table| && |Times(rs)| == |rs|;
    hide Times, NewestFirst, NoneNewer;
    assert multiset(Times(table)) - multiset(Times(rs)) == multiset(Times(rest));
    assert |multiset(Times(table))| == |table|;
  }

  lemma TimesOfSources(sessions: seq<Run>, rotations: seq<Run>, folds: seq<Fold>)
    ensures multiset(Times(sessions + rotations + FromFolds(folds))) ==
            multiset(Times(sessions)) + multiset(Times(rotations)) + multiset(FoldTimes(folds))
  {
    assert Times(FromFolds(folds)) == FoldTimes(folds);
    assert Times(sessions + rotations + FromFolds(folds)) == Times(sessions) + Times(rotations) + FoldTimes(folds);
  }

  /** A row that is left out is no newer than any that is listed. */
  lemma LeftIsOlder(items: seq<Run>, all: seq<Run>, limit: nat, r: Run)
    requires IsNewest(items, all, limit, EXACT) && r in all && r !in items
    ensures forall q | q in items :: r.created <= q.created
  {
    assert r in multiset(all) - multiset(items);
    forall q | q in items
      ensures r.created <= q.created
    {
      var i :| 0 <= i < |items| && items[i] == q;
      assert Time(r, EXACT) <= Time(items[i], EXACT);
    }
  }

  lemma ListedIsGiven(items: seq<Run>, all: seq<Run>, limit: nat, r: Run)
    requires IsNewest(items, all, limit, EXACT) && r in items
    ensures r in all
  {
    assert r in multiset(items);
  }

  lemma EveryRowIsGiven(items: seq<Run>, limit: nat, sessions: seq<Run>, rotations: seq<Run>, folds: seq<Fold>)
    requires IsNewest(items, sessions + rotations + FromFolds(folds), limit, EXACT)
    ensures forall r | r in items :: r in sessions || r in rotations || exists f | f in folds :: ShowsFold(r, f)
  {
    forall r | r in items
      ensures r in sessions || r in rotations || exists f | f in folds :: ShowsFold(r, f)
    {
      ListedIsGiven(items, sessions + rotations + FromFolds(folds), limit, r);
      hide IsNewest;
      if r !in sessions && r !in rotations {
        var i :| 0 <= i < |folds| && FromFolds(folds)[i] == r;
        assert folds[i] in folds && ShowsFold(r, folds[i]);
      }
    }
  }

  lemma FoldIsListedOrOlder(items: seq<Run>, all: seq<Run>, limit: nat, folds: seq<Fold>, f: Fold)
    requires IsNewest(items, all, limit, EXACT) && f in folds && forall r | r in FromFolds(folds) :: r in all
    ensures (exists r | r in items :: ShowsFold(r, f)) || forall r | r in items :: f.foldedAt <= r.created
  {
    var i :| 0 <= i < |folds| && folds[i] == f;
    var r := FromFolds(folds)[i];
    assert ShowsFold(r, f) && r in all;
    if r !in items {
      LeftIsOlder(items, all, limit, r);
    }
  }

  lemma NewestIsListed(items: seq<Run>, param: Option<int>, sessions: seq<Run>, rotations: seq<Run>, folds: seq<Fold>)
    requires IsNewest(items, sessions + rotations + FromFolds(folds), Limit(param), EXACT)
    ensures Lists(items, param, sessions, rotations, folds)
  {
    var all := sessions + rotations + FromFolds(folds);
    NewestByTime(items, all, Limit(param));
    TimesOfSources(sessions, rotations, folds);
    EveryRowIsGiven(items, Limit(param), sessions, rotations, folds);
    assert forall r | r in FromFolds(folds) :: r in all;
    hide IsNewest, Times, FoldTimes, NewestTimes, ShowsFold;
    forall f | f in folds
      ensures (exists r | r in items :: ShowsFold(r, f)) || forall r | r in items :: f.foldedAt <= r.created
    {
      FoldIsListedOrOlder(items, all, Limit(param), folds, f);
    }
    forall r | r in sessions + rotations && r !in items
      ensures forall q | q in items :: r.created <= q.created
    {
      assert r in all;
      LeftIsOlder(items, all, Limit(param), r);
    }
  }

  /** The merge: everything the sources gave, newest first, cut to the limit. */
  method List(param: Option<int>, sessions: seq<Run>, rotations: seq<Run>, folds: seq<Fold>)
    returns (items: seq<Run>)
    ensures IsNewest(items, sessions + rotations + FromFolds(folds), Limit(param), EXACT)
    ensures Lists(items, param, sessions, rotations, folds)
  {
    var limit := DEFAULT_LIMIT;
    if param.Some? {
      var p := param.value;
      if p < 1 {
        p := 1;
      }
      if p > MAX_LIMIT {
        p := MAX_LIMIT;
      }
      limit := p;
    }
    items := [];
    items := items + sessions;
    items := items + rotations;
    for i := 0 to |folds|
      invariant items == sessions + rotations + FromFolds(folds[..i])
    {
      items := items + [FromFold(folds[i])];
      assert FromFolds(folds[..i + 1]) == FromFolds(folds[..i]) + [FromFold(folds[i])];
    }
    assert folds[..|folds|] == folds;
    ghost var all := items;
    items := SortNewestFirst(items);
    FirstAreNewest(items, all, limit);
    if |items| > limit {
      items := items[..limit];
    }
    NewestIsListed(items, param, sessions, rotations, folds);
  }

  lemma FirstAreNewest(sorted: seq<Run>, all: seq<Run>, limit: nat)
    requires NewestFirst(sorted, EXACT) && multiset(sorted) == multiset(all)
    ensures IsNewest(if |sorted| > limit then sorted[..limit] else sorted, all, limit, EXACT)
  {
    assert |multiset(sorted)| == |multiset(all)|;
    var cut := if |sorted| > limit then limit else |sorted|;
    assert sorted[..|sorted|] == sorted;
    CutAt(sorted, cut);
    hide NewestFirst, NoneNewer;
    var shown, left := sorted[..cut], sorted[cut..];
    assert sorted == shown + left;
    assert multiset(all) - multiset(shown) == multiset(left);
  }

  lemma CutAt(sorted: seq<Run>, cut: nat)
    requires NewestFirst(sorted, EXACT) && cut <= |sorted|
    ensures NewestFirst(sorted[..cut], EXACT) && NoneNewer(multiset(sorted[cut..]), sorted[..cut], EXACT)
  {
    forall r, i | r in multiset(sorted[cut..]) && 0 <= i < cut
      ensures Time(r, EXACT) <= Time(sorted[..cut][i], EXACT)
    {
      assert r in sorted[cut..];
    }
  }

  // ----- counting -----

  /** Runs newer than a time that are found among a few and some no newer are found among the few. */
  lemma NewerAreAmongFew(newer: multiset<Run>, few: multiset<Run>, many: multiset<Run>, time: int, unit: Unit)
    requires newer <= few + many
    requires forall r | r in newer :: Time(r, unit) > time
    requires forall r | r in many :: Time(r, unit) <= time
    ensures |newer| <= |few|
  {
    assert newer <= few by {
      forall r | r in newer
        ensures newer[r] <= few[r]
      {
        assert r !in many;
      }
    }
    assert few == newer + (few - newer);
  }

  lemma OthersAreNoNewer(rs: seq<Run>, left: multiset<Run>, i: nat, r: Run, unit: Unit)
    requires NewestFirst(rs, unit) && NoneNewer(left, rs, unit) && i < |rs|
    requires r in multiset(rs[i..]) + left
    ensures Time(r, unit) <= Time(rs[i], unit)
  {
    if r in multiset(rs[i..]) {
      assert r in rs[i..];
    }
  }

  lemma CutInThree(rs: seq<Run>, table: multiset<Run>, i: nat)
    requires multiset(rs) <= table && i <= |rs|
    ensures table == multiset(rs[..i]) + (multiset(rs[i..]) + (table - multiset(rs)))
  {
    assert rs == rs[..i] + rs[i..];
  }

  /** Fewer runs than stand in front of it are newer than a listed run. */
  lemma FewAreNewer(rs: seq<Run>, table: seq<Run>, limit: nat, i: nat, newer: multiset<Run>, unit: Unit)
    requires IsNewest(rs, table, limit, unit) && i < |rs| && newer <= multiset(table)
    requires forall r | r in newer :: Time(r, unit) > Time(rs[i], unit)
    ensures |newer| <= i
  {
    hide NewestFirst, NoneNewer;
    var left := multiset(table) - multiset(rs);
    var many := multiset(rs[i..]) + left;
    CutInThree(rs, multiset(table), i);
    forall r | r in many
      ensures Time(r, unit) <= Time(rs[i], unit)
    {
      OthersAreNoNewer(rs, left, i, r, unit);
    }
    NewerAreAmongFew(newer, multiset(rs[..i]), many, Time(rs[i], unit), unit);
  }

  lemma FirstsAreNewer(qs: seq<Run>, i: nat, time: int, unit: Unit)
    requires NewestFirst(qs, unit) && i < |qs| && Time(qs[i], unit) > time
    ensures forall r | r in multiset(qs[..i + 1]) :: Time(r, unit) > time
    ensures |multiset(qs[..i + 1])| == i + 1 && multiset(qs[..i + 1]) <= multiset(qs)
  {
    assert qs == qs[..i + 1] + qs[i + 1..];
    forall r | r in multiset(qs[..i + 1])
      ensures Time(r, unit) > time
    {
      assert r in qs[..i + 1];
    }
  }

  /** At every position one choice of the newest rows is at least as new as another. */
  lemma NoChoiceIsOlder(rs: seq<Run>, qs: seq<Run>, table: seq<Run>, limit: nat, i: nat, unit: Unit)
    requires IsNewest(rs, table, limit, unit) && IsNewest(qs, table, limit, unit) && i < |rs|
    ensures Time(rs[i], unit) >= Time(qs[i], unit)
  {
    hide NewestFirst, NoneNewer;
    if Time(rs[i], unit) < Time(qs[i], unit) {
      FirstsAreNewer(qs, i, Time(rs[i], unit), unit);
      FewAreNewer(rs, table, limit, i, multiset(qs[..i + 1]), unit);
    }
  }

  /** The times listed are determined by the table, whatever order equal times come in. */
  lemma TimesAreDetermined(rs: seq<Run>, qs: seq<Run>, table: seq<Run>, limit: nat, unit: Unit)
    requires IsNewest(rs, table, limit, unit) && IsNewest(qs, table, limit, unit)
    ensures |rs| == |qs| && forall i | 0 <= i < |rs| :: Time(rs[i], unit) == Time(qs[i], unit)
  {
    forall i | 0 <= i < |rs|
      ensures Time(rs[i], unit) == Time(qs[i], unit)
    {
      NoChoiceIsOlder(rs, qs, table, limit, i, unit);
      NoChoiceIsOlder(qs, rs, table, limit, i, unit);
    }
  }

  // ----- cutting first is cutting last -----

  /** If a cut leaves a row of its table out, every one of limit rows taken from more is at least as new. */
  lemma LeftOutIsNotMissed(cut: seq<Run>, table: seq<Run>, all: seq<Run>, rs: seq<Run>, limit: nat, r: Run, unit: Unit)
    requires IsNewest(cut, table, limit, unit) && multiset(cut) <= multiset(all) && IsNewest(rs, all, limit, unit)
    requires r in multiset(table) - multiset(cut)
    ensures forall i | 0 <= i < |rs| :: Time(r, unit) <= Time(rs[i], unit)
  {
    LeftOutMeansFull(cut, table, r);
    assert |multiset(cut)| == limit;
    forall i | 0 <= i < |rs|
      ensures Time(r, unit) <= Time(rs[i], unit)
    {
      if Time(rs[i], unit) < Time(r, unit) {
        forall q | q in multiset(cut)
          ensures Time(q, unit) > Time(rs[i], unit)
        {
          assert q in cut;
        }
        FewAreNewer(rs, all, limit, i, multiset(cut), unit);
      }
    }
  }

  lemma LeftOutMeansFull(cut: seq<Run>, table: seq<Run>, r: Run)
    requires multiset(cut) <= multiset(table) && r in multiset(table) - multiset(cut)
    ensures |cut| < |table|
  {
    var left := multiset(table) - multiset(cut);
    assert multiset(table) == multiset(cut) + left;
    assert left == multiset{r} + (left - multiset{r});
  }

  /**
   * Cutting each of three tables to its newest rows, merging and cutting again gives the newest rows of the
   * three tables together.
   */
  lemma CutMergeCut(a: seq<Run>, b: seq<Run>, c: seq<Run>, A: seq<Run>, B: seq<Run>, C: seq<Run>,
                    rs: seq<Run>, limit: nat, unit: Unit)
    requires IsNewest(a, A, limit, unit) && IsNewest(b, B, limit, unit) && IsNewest(c, C, limit, unit)
    requires IsNewest(rs, a + b + c, limit, unit)
    ensures IsNewest(rs, A + B + C, limit, unit)
  {
    var all := a + b + c;
    forall r | r in multiset(A + B + C) - multiset(rs)
      ensures forall i | 0 <= i < |rs| :: Time(r, unit) <= Time(rs[i], unit)
    {
      if r in multiset(A) - multiset(a) {
        LeftOutIsNotMissed(a, A, all, rs, limit, r, unit);
      } else if r in multiset(B) - multiset(b) {
        LeftOutIsNotMissed(b, B, all, rs, limit, r, unit);
      } else if r in multiset(C) - multiset(c) {
        LeftOutIsNotMissed(c, C, all, rs, limit, r, unit);
      } else {
        assert r in multiset(all) - multiset(rs);
      }
    }
  }

  lemma TimesUnit(n: int, unit: Unit)
    requires n >= 1
    ensures n * unit >= unit
  {
  }

  lemma Coarser(x: int, y: int, unit: Unit)
    requires x <= y
    ensures x / unit <= y / unit
  {
    if x / unit > y / unit {
      Quotient(x, unit);
      Quotient(y, unit);
      TimesUnit(x / unit - y / unit, unit);
    }
  }

  lemma Quotient(x: int, unit: Unit)
    ensures x / unit * unit <= x < x / unit * unit + unit
  {
    assert x == x / unit * unit + x % unit;
  }

  /** What is newest to the nanosecond is newest at every coarser precision. */
  lemma ExactIsNewest(rs: seq<Run>, table: seq<Run>, limit: nat, unit: Unit)
    requires IsNewest(rs, table, limit, EXACT)
    ensures IsNewest(rs, table, limit, unit)
  {
    forall i, j | 0 <= i < j < |rs|
      ensures Time(rs[i], unit) >= Time(rs[j], unit)
    {
      assert Time(rs[i], EXACT) >= Time(rs[j], EXACT);
      Coarser(rs[j].created, rs[i].created, unit);
    }
    forall r, i | r in multiset(table) - multiset(rs) && 0 <= i < |rs|
      ensures Time(r, unit) <= Time(rs[i], unit)
    {
      assert Time(r, EXACT) <= Time(rs[i], EXACT);
      Coarser(r.created, rs[i].created, unit);
    }
  }

  /**
   * The listing shows the newest rows of the three uncut tables together, at the precision at which the sources
   * return the newest rows of theirs: EXACT if they order by time, a second if they order by a text of the time
   * in which fractions of a second do not compare.
   */
  lemma ListingIsNewest(sessions: seq<Run>, rotations: seq<Run>, folds: seq<Fold>, items: seq<Run>, limit: nat,
                        allSessions: seq<Run>, allRotations: seq<Run>, allFolds: seq<Fold>, unit: Unit)
    requires IsNewest(sessions, allSessions, limit, unit) && IsNewest(rotations, allRotations, limit, unit)
    requires IsNewest(FromFolds(folds), FromFolds(allFolds), limit, unit)
    requires IsNewest(items, sessions + rotations + FromFolds(folds), limit, EXACT)
    ensures IsNewest(items, allSessions + allRotations + FromFolds(allFolds), limit, unit)
    ensures NewestFirst(items, EXACT)
    ensures forall r | r in items :: r in sessions || r in rotations || r in FromFolds(folds)
  {
    var all, tables := sessions + rotations + FromFolds(folds), FromFolds(allFolds);
    ExactIsNewest(items, all, limit, unit);
    CutMergeCut(sessions, rotations, FromFolds(folds), allSessions, allRotations, tables, items, limit, unit);
    forall r | r in items
      ensures r in sessions || r in rotations || r in FromFolds(folds)
    {
      assert r in multiset(items);
      assert r in multiset(all);
    }
  }
}
