/**
 * SleepHistoryScreen's `loadSleepData`: the sessions fetched for a night are folded into
 * per-stage milliseconds (awake, light, deep, rem), the envelope of earliest valid start and
 * latest valid end, and a summary of the stages with positive time in the display order
 * deep, light, rem, awake. A `dayjs` time that fails to parse is None here.
 */
module SleepHistory {
  import opened Wrappers
  import opened Reduce
  import TimeSort

  datatype Stage = Awake | Light | Deep | Rem

  /**
   * `mapHealthConnectStageToName`; None is 'unknown'. Code 2 is read as deep, and codes
   * outside 1..6 (0 and 7 among them) are unknown.
   */
  function StageOf(code: int): (s: Option<Stage>)
    ensures s == Some(Awake) <==> code == 1
    ensures s == Some(Light) <==> code == 4
    ensures s == Some(Deep) <==> code == 2 || code == 3 || code == 5
    ensures s == Some(Rem) <==> code == 6
    ensures s.None? <==> code < 1 || 6 < code
  {
    match code
    case 1 => Some(Awake)
    case 4 => Some(Light)
    case 5 => Some(Deep)
    case 6 => Some(Rem)
    case 2 => Some(Deep)
    case 3 => Some(Deep)
    case _ => None
  }

  datatype StageRecord = StageRecord(stage: int, startTime: Option<int>, endTime: Option<int>)

  datatype Session = Session(startTime: Option<int>, endTime: Option<int>, stages: Option<seq<StageRecord>>)

  /** `combinedStageDurationsMillis`. */
  datatype StageTotals = StageTotals(awake: int, light: int, deep: int, rem: int) {
    function Get(s: Stage): int {
      match s
      case Awake => awake
      case Light => light
      case Deep => deep
      case Rem => rem
    }

    /** `combinedStageDurationsMillis[s] += d`. */
    function Add(s: Stage, d: int): (r: StageTotals)
      ensures r.Get(s) == Get(s) + d
      ensures forall s' :: s' != s ==> r.Get(s') == Get(s')
    {
      match s
      case Awake => this.(awake := awake + d)
      case Light => this.(light := light + d)
      case Deep => this.(deep := deep + d)
      case Rem => this.(rem := rem + d)
    }
  }

  const NoTotals := StageTotals(0, 0, 0, 0)

  /** Both times of a stage parse and the end is strictly after the start. */
  predicate ValidInterval(st: StageRecord) {
    st.startTime.Some? && st.endTime.Some? && st.endTime.value > st.startTime.value
  }

  /** The body of the inner `forEach`: credit a known, valid stage with its length. */
  function AddStage(t: StageTotals, st: StageRecord): (r: StageTotals)
    ensures forall s :: r.Get(s) >= t.Get(s)
  {
    match StageOf(st.stage)
    case None => t
    case Some(s) =>
      if ValidInterval(st) then t.Add(s, st.endTime.value - st.startTime.value) else t
  }

  function AddStages(t: StageTotals, stages: seq<StageRecord>): (r: StageTotals)
    ensures forall s :: r.Get(s) >= t.Get(s)
  {
    if stages == [] then t else AddStage(AddStages(t, stages[..|stages| - 1]), stages[|stages| - 1])
  }

  /** One session: its stages are folded in only when `session.stages` is present. */
  function AddSession(t: StageTotals, session: Session): StageTotals {
    match session.stages
    case None => t
    case Some(stages) => AddStages(t, stages)
  }

  /**
   * The totals after the outer `forEach` over the sessions. No stage total is negative, since
   * only forward intervals are credited.
   */
  function CombinedTotals(sessions: seq<Session>): (totals: StageTotals)
    ensures forall s :: totals.Get(s) >= 0
  {
    if sessions == [] then NoTotals
    else AddSession(CombinedTotals(sessions[..|sessions| - 1]), sessions[|sessions| - 1])
  }

  /** The earliest valid session start: replaced whenever a start is strictly before it. */
  function EarliestStart(sessions: seq<Session>): (r: Option<int>)
    ensures r.None? <==> forall i :: 0 <= i < |sessions| ==> sessions[i].startTime.None?
    ensures r.Some? ==> exists i :: 0 <= i < |sessions| && sessions[i].startTime == r
    ensures r.Some? ==> forall i :: 0 <= i < |sessions| && sessions[i].startTime.Some? ==>
      r.value <= sessions[i].startTime.value
  {
    if sessions == [] then None
    else
      var e := EarliestStart(sessions[..|sessions| - 1]);
      var start := sessions[|sessions| - 1].startTime;
      if start.Some? && (e.None? || start.value < e.value) then start else e
  }

  /** The latest valid session end: replaced whenever an end is strictly after it. */
  function LatestEnd(sessions: seq<Session>): (r: Option<int>)
    ensures r.None? <==> forall i :: 0 <= i < |sessions| ==> sessions[i].endTime.None?
    ensures r.Some? ==> exists i :: 0 <= i < |sessions| && sessions[i].endTime == r
    ensures r.Some? ==> forall i :: 0 <= i < |sessions| && sessions[i].endTime.Some? ==>
      sessions[i].endTime.value <= r.value
  {
    if sessions == [] then None
    else
      var l := LatestEnd(sessions[..|sessions| - 1]);
      var end := sessions[|sessions| - 1].endTime;
      if end.Some? && (l.None? || end.value > l.value) then end else l
  }

  /** `totalSessionDurationMillis`: the envelope's length, or 0 unless latest is after earliest. */
  function TotalDuration(earliest: Option<int>, latest: Option<int>): (total: int)
    ensures total >= 0
    ensures total > 0 <==> earliest.Some? && latest.Some? && latest.value > earliest.value
    ensures total > 0 ==> earliest.value + total == latest.value
  {
    if earliest.Some? && latest.Some? && latest.value > earliest.value
    then latest.value - earliest.value else 0
  }

  datatype StageDuration = StageDuration(stageName: Stage, durationMillis: int)

  /** `Object.keys(...).map(...)`: the totals in key order awake, light, deep, rem. */
  function Entries(t: StageTotals): seq<StageDuration> {
    [StageDuration(Awake, t.awake), StageDuration(Light, t.light),
     StageDuration(Deep, t.deep), StageDuration(Rem, t.rem)]
  }

  /** `.filter(stage => stage.durationMillis > 0)`. */
  function KeepPositive(s: seq<StageDuration>): (r: seq<StageDuration>)
    ensures forall x :: x in r <==> x in s && x.durationMillis > 0
    ensures |r| <= |s|
  {
    if s == [] then [] else Keep(s[0]) + KeepPositive(s[1..])
  }

  /** `order.indexOf(name)` with order = ['deep', 'light', 'rem', 'awake']. */
  function DisplayRank(s: Stage): int {
    match s
    case Deep => 0
    case Light => 1
    case Rem => 2
    case Awake => 3
  }

  function RankOf(e: StageDuration): int {
    DisplayRank(e.stageName)
  }

  /** `stagesSummary` after its sort by display rank. */
  function Summary(t: StageTotals): seq<StageDuration> {
    TimeSort.SortByKey(KeepPositive(Entries(t)), RankOf)
  }

  datatype ProcessedSleepSession = ProcessedSleepSession(
    startTime: Option<int>, endTime: Option<int>, totalDurationMillis: int,
    stagesSummary: seq<StageDuration>)

  /** What `loadSleepData` stores: null on an error or an empty night, else the summary object. */
  function ProcessSleep(fetched: Fetch<seq<Session>>): (r: Option<ProcessedSleepSession>)
    ensures r.None? <==> fetched.FetchError? || fetched.records == []
    ensures r.Some? ==> r.value.startTime == EarliestStart(fetched.records)
    ensures r.Some? ==> r.value.endTime == LatestEnd(fetched.records)
    ensures r.Some? ==> r.value.totalDurationMillis == TotalDuration(r.value.startTime, r.value.endTime)
    ensures r.Some? ==> r.value.stagesSummary == DisplayOrder(CombinedTotals(fetched.records))
  {
    match fetched
    case FetchError => None
    case Fetched(sessions) =>
      if |sessions| == 0 then None
      else
        var earliest, latest := EarliestStart(sessions), LatestEnd(sessions);
        SummaryIsDisplayOrder(CombinedTotals(sessions));
        Some(ProcessedSleepSession(earliest, latest, TotalDuration(earliest, latest),
          Summary(CombinedTotals(sessions))))
  }

  /** `loadSleepData`: the nested loops over sessions and stages, then the filter and sort. */
  method LoadSleepData(fetched: Fetch<seq<Session>>) returns (r: Option<ProcessedSleepSession>)
    ensures r == ProcessSleep(fetched)
  {
    if fetched.FetchError? {
      return None;
    }
    var sessions := fetched.records;
    if |sessions| == 0 {
      return None;
    }
    var totals := StageTotals(0, 0, 0, 0);
    var earliest: Option<int> := None;
    var latest: Option<int> := None;
    for i := 0 to |sessions|
      invariant totals == CombinedTotals(sessions[..i])
      invariant earliest == EarliestStart(sessions[..i])
      invariant latest == LatestEnd(sessions[..i])
    {
      assert sessions[..i + 1][..i] == sessions[..i];
      var session := sessions[i];
      if session.startTime.Some? {
        if earliest.None? || session.startTime.value < earliest.value {
          earliest := session.startTime;
        }
      }
      if session.endTime.Some? {
        if latest.None? || session.endTime.value > latest.value {
          latest := session.endTime;
        }
      }
      if session.stages.Some? {
        totals := AccumulateStages(totals, session.stages.value);
      }
    }
    assert sessions[..|sessions|] == sessions;
    var stagesSummary := KeepPositive(Entries(totals));
    stagesSummary := TimeSort.SortedCopy(stagesSummary, RankOf);
    assert stagesSummary == Summary(CombinedTotals(sessions));
    r := Some(ProcessedSleepSession(earliest, latest, TotalDuration(earliest, latest), stagesSummary));
  }

  /** The inner `session.stages.forEach`: each mapped, valid, forward stage adds its length. */
  method AccumulateStages(before: StageTotals, stages: seq<StageRecord>) returns (totals: StageTotals)
    ensures totals == AddStages(before, stages)
  {
    totals := before;
    for j := 0 to |stages|
      invariant totals == AddStages(before, stages[..j])
    {
      assert stages[..j + 1][..j] == stages[..j];
      var stage := stages[j];
      var stageName := StageOf(stage.stage);
      if stageName.Some? {
        if stage.startTime.Some? && stage.endTime.Some? && stage.endTime.value > stage.startTime.value {
          totals := totals.Add(stageName.value, stage.endTime.value - stage.startTime.value);
        }
      }
    }
    assert stages[..|stages|] == stages;
  }

  /**
   * A positive total duration is attained: it is the distance from some session's valid
   * start to some session's valid end (EnvelopeCoversSessions gives the lower bound).
   */
  lemma EnvelopeSpan(sessions: seq<Session>)
    requires ProcessSleep(Fetched(sessions)).Some?
    requires ProcessSleep(Fetched(sessions)).value.totalDurationMillis > 0
    ensures exists i, j ::
      && 0 <= i < |sessions| && 0 <= j < |sessions|
      && sessions[i].startTime.Some? && sessions[j].endTime.Some?
      && ProcessSleep(Fetched(sessions)).value.totalDurationMillis ==
         sessions[j].endTime.value - sessions[i].startTime.value
  {
    var e, l := EarliestStart(sessions), LatestEnd(sessions);
    var i :| 0 <= i < |sessions| && sessions[i].startTime == e;
    var j :| 0 <= j < |sessions| && sessions[j].endTime == l;
    assert ProcessSleep(Fetched(sessions)).value.totalDurationMillis ==
      sessions[j].endTime.value - sessions[i].startTime.value;
  }

  /** What one stage record credits to stage s: its length, if it is s, valid and forward. */
  function Contribution(st: StageRecord, s: Stage): int {
    if StageOf(st.stage) == Some(s) && ValidInterval(st) then st.endTime.value - st.startTime.value else 0
  }

  function ContributionTo(s: Stage): StageRecord -> int {
    st => Contribution(st, s)
  }

  /** `session.stages`, or no stages when it is absent. */
  function StagesOf(session: Session): seq<StageRecord> {
    session.stages.GetOr([])
  }

  /** Every stage record of every session, in order. */
  function AllStages(sessions: seq<Session>): seq<StageRecord> {
    FlatMap(sessions, StagesOf)
  }

  /** An unknown code, or an invalid or non-forward interval, leaves every total unchanged. */
  lemma IgnoredStage(t: StageTotals, st: StageRecord)
    requires StageOf(st.stage).None? || !ValidInterval(st)
    ensures AddStage(t, st) == t
  {
  }

  lemma {:induction false} AddStagesIsSum(t: StageTotals, stages: seq<StageRecord>, s: Stage)
    ensures AddStages(t, stages).Get(s) == t.Get(s) + SumInt(stages, ContributionTo(s))
  {
    if stages != [] {
      AddStagesIsSum(t, stages[..|stages| - 1], s);
    }
  }

  /**
   * Each stage total is the sum over all stage records of all sessions of what that record
   * credits to the stage: nothing is de-duplicated where sessions or stages overlap.
   */
  lemma {:induction false} CombinedTotalsIsSum(sessions: seq<Session>, s: Stage)
    ensures CombinedTotals(sessions).Get(s) == SumInt(AllStages(sessions), ContributionTo(s))
  {
    if sessions != [] {
      var init, last := sessions[..|sessions| - 1], sessions[|sessions| - 1];
      CombinedTotalsIsSum(init, s);
      var stages := StagesOf(last);
      AddStagesIsSum(CombinedTotals(init), stages, s);
      SumIntAppend(AllStages(init), stages, ContributionTo(s));
    }
  }

  /** Totals add up across sessions: the night's totals are the sums of its parts'. */
  lemma CombinedTotalsAppend(a: seq<Session>, b: seq<Session>, s: Stage)
    ensures CombinedTotals(a + b).Get(s) == CombinedTotals(a).Get(s) + CombinedTotals(b).Get(s)
  {
    CombinedTotalsIsSum(a + b, s);
    CombinedTotalsIsSum(a, s);
    CombinedTotalsIsSum(b, s);
    FlatMapAppend(a, b, StagesOf);
    SumIntAppend(AllStages(a), AllStages(b), ContributionTo(s));
  }

  /**
   * The envelope spans every session whose own times are valid and forward, so the total
   * duration is at least the length of each such session.
   */
  lemma EnvelopeCoversSessions(sessions: seq<Session>, i: nat)
    requires i < |sessions|
    requires sessions[i].startTime.Some? && sessions[i].endTime.Some?
    requires sessions[i].endTime.value > sessions[i].startTime.value
    ensures TotalDuration(EarliestStart(sessions), LatestEnd(sessions)) >=
      sessions[i].endTime.value - sessions[i].startTime.value
  {
  }

  /** The stages in display order deep, light, rem, awake, each kept only when positive. */
  function DisplayOrder(t: StageTotals): seq<StageDuration> {
    KeepPositive([StageDuration(Deep, t.deep), StageDuration(Light, t.light),
      StageDuration(Rem, t.rem), StageDuration(Awake, t.awake)])
  }

  /**
   * The sorted summary is exactly the positive stages in the order deep, light, rem, awake,
   * each with its total.
   */
  lemma SummaryIsDisplayOrder(t: StageTotals)
    ensures Summary(t) == DisplayOrder(t)
    ensures forall x :: x in Summary(t) <==> x.durationMillis == t.Get(x.stageName) > 0
  {
    var filtered := KeepPositive(Entries(t));
    TimeSort.SortByKeySorted(filtered, RankOf);
    TimeSort.SortByKeyPermutation(filtered, RankOf);
    KeepPositiveMultiset(t);
    DisplayOrderSorted(t);
    SummaryMembers(t);
    var among := iset x: StageDuration | x.durationMillis == t.Get(x.stageName);
    RankTellsApart(t, among);
    TimeSort.SortedUnique(Summary(t), DisplayOrder(t), RankOf, among);
  }

  /** The summary holds the stages with positive totals, each with its total, and no others. */
  lemma SummaryMembers(t: StageTotals)
    ensures forall i :: 0 <= i < |Summary(t)| ==>
      Summary(t)[i].durationMillis == t.Get(Summary(t)[i].stageName)
    ensures forall x :: x in Summary(t) <==> x.durationMillis == t.Get(x.stageName) > 0
  {
    TimeSort.SortByKeyMembers(KeepPositive(Entries(t)), RankOf);
    EntriesMembers(t);
    var a := Summary(t);
    forall i | 0 <= i < |a|
      ensures a[i].durationMillis == t.Get(a[i].stageName)
    {
      assert a[i] in a;
    }
  }

  lemma EntriesMembers(t: StageTotals)
    ensures forall x :: x in Entries(t) <==> x.durationMillis == t.Get(x.stageName)
  {
    forall x
      ensures x in Entries(t) <==> x.durationMillis == t.Get(x.stageName)
    {
      match x.stageName
      case Awake => assert x.durationMillis == t.awake ==> x == Entries(t)[0];
      case Light => assert x.durationMillis == t.light ==> x == Entries(t)[1];
      case Deep => assert x.durationMillis == t.deep ==> x == Entries(t)[2];
      case Rem => assert x.durationMillis == t.rem ==> x == Entries(t)[3];
    }
  }

  lemma RankTellsApart(t: StageTotals, among: iset<StageDuration>)
    requires among == iset x: StageDuration | x.durationMillis == t.Get(x.stageName)
    ensures forall x, y :: x in among && y in among && RankOf(x) == RankOf(y) ==> x == y
  {
    forall x, y | x in among && y in among && RankOf(x) == RankOf(y)
      ensures x == y
    {
      assert x.stageName == y.stageName;
    }
  }

  lemma KeepPositiveMultiset(t: StageTotals)
    ensures multiset(KeepPositive(Entries(t))) == multiset(DisplayOrder(t))
  {
    var e := Entries(t);
    var d := [StageDuration(Deep, t.deep), StageDuration(Light, t.light),
      StageDuration(Rem, t.rem), StageDuration(Awake, t.awake)];
    assert multiset(e) == multiset(d);
    KeepPositivePermutation(e, d);
  }

  /** Filtering two reorderings of the same entries gives two reorderings of the same result. */
  lemma KeepPositivePermutation(a: seq<StageDuration>, b: seq<StageDuration>)
    requires multiset(a) == multiset(b)
    ensures multiset(KeepPositive(a)) == multiset(KeepPositive(b))
  {
    forall x
      ensures multiset(KeepPositive(a))[x] == multiset(KeepPositive(b))[x]
    {
      KeepPositiveCount(a, x);
      KeepPositiveCount(b, x);
    }
  }

  /** Filtering keeps every copy of a positive entry and none of the others. */
  lemma {:induction false} KeepPositiveCount(s: seq<StageDuration>, x: StageDuration)
    ensures multiset(KeepPositive(s))[x] == if x.durationMillis > 0 then multiset(s)[x] else 0
  {
    if s != [] {
      var head, rest := s[0], s[1..];
      KeepPositiveCount(rest, x);
      assert s == [head] + rest;
      assert KeepPositive(s) == Keep(head) + KeepPositive(rest);
      assert multiset(s)[x] == multiset([head])[x] + multiset(rest)[x];
      assert multiset(KeepPositive(s))[x] == multiset(Keep(head))[x] + multiset(KeepPositive(rest))[x];
    }
  }

  function Keep(x: StageDuration): seq<StageDuration> {
    if x.durationMillis > 0 then [x] else []
  }

  lemma DisplayOrderSorted(t: StageTotals)
    ensures TimeSort.SortedBy(DisplayOrder(t), RankOf)
  {
    var d := [StageDuration(Deep, t.deep), StageDuration(Light, t.light),
      StageDuration(Rem, t.rem), StageDuration(Awake, t.awake)];
    assert forall i, j :: 0 <= i < j < |d| ==> RankOf(d[i]) < RankOf(d[j]);
    KeepPositiveSorted(d);
  }

  lemma {:induction false} KeepPositiveSorted(s: seq<StageDuration>)
    requires TimeSort.SortedBy(s, RankOf)
    ensures TimeSort.SortedBy(KeepPositive(s), RankOf)
  {
    if s != [] {
      KeepPositiveSorted(s[1..]);
      var rest := KeepPositive(s[1..]);
      forall x | x in rest
        ensures RankOf(s[0]) <= RankOf(x)
      {
        var j :| 1 <= j < |s| && s[j] == x;
      }
    }
  }
}
