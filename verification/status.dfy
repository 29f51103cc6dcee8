/** The status engine of lib/logic/computeStatus.ts: additive scoring of one
    day's record and its classification into GREEN (安定), YELLOW (注意) or
    RED (危険). */
module StatusEngine {
  import opened Wrappers

  /** 疲労: 低 | 中 | 高. */
  datatype FatigueLevel = Low | Medium | High

  /** 睡眠: 良 | 普通 | 悪. */
  datatype SleepQuality = Good | Fair | Poor

  datatype StatusKey = GREEN | YELLOW | RED

  /** One entry of the `STATUS` table: key, display caption (`label`) and style classes. */
  datatype Status = Status(key: StatusKey, caption: string, tone: string, chip: string)

  function FatigueLiteral(f: FatigueLevel): string {
    match f
    case Low => "低"
    case Medium => "中"
    case High => "高"
  }

  /** The fatigue level a stored literal denotes, if any. */
  function ParseFatigue(s: string): (r: Option<FatigueLevel>)
    ensures r.Some? ==> FatigueLiteral(r.value) == s
  {
    if s == "低" then Some(Low)
    else if s == "中" then Some(Medium)
    else if s == "高" then Some(High)
    else None
  }

  lemma FatigueLiteralRoundTrip(f: FatigueLevel)
    ensures ParseFatigue(FatigueLiteral(f)) == Some(f)
  {
  }

  function SleepLiteral(q: SleepQuality): string {
    match q
    case Good => "良"
    case Fair => "普通"
    case Poor => "悪"
  }

  /** The sleep quality a stored literal denotes, if any. */
  function ParseSleep(s: string): (r: Option<SleepQuality>)
    ensures r.Some? ==> SleepLiteral(r.value) == s
  {
    if s == "良" then Some(Good)
    else if s == "普通" then Some(Fair)
    else if s == "悪" then Some(Poor)
    else None
  }

  lemma SleepLiteralRoundTrip(q: SleepQuality)
    ensures ParseSleep(SleepLiteral(q)) == Some(q)
  {
  }

  /** The `STATUS` table. */
  function StatusOf(k: StatusKey): (s: Status)
    ensures s.key == k
  {
    match k
    case GREEN => Status(GREEN, "🟢 安定", "bg-emerald-50 border-emerald-200", "bg-emerald-100 text-emerald-900")
    case YELLOW => Status(YELLOW, "🟡 注意", "bg-amber-50 border-amber-200", "bg-amber-100 text-amber-900")
    case RED => Status(RED, "🔴 危険", "bg-rose-50 border-rose-200", "bg-rose-100 text-rose-900")
  }

  /** The three table entries are told apart by their labels as well as their keys. */
  lemma StatusTableDistinct(a: StatusKey, b: StatusKey)
    ensures StatusOf(a).caption == StatusOf(b).caption <==> a == b
  {
    if a != b {
      assert StatusOf(a).caption[0] != StatusOf(b).caption[0];
    }
  }

  /** Severity order GREEN < YELLOW < RED. */
  function Severity(k: StatusKey): nat {
    match k
    case GREEN => 0
    case YELLOW => 1
    case RED => 2
  }

  /** Position of a fatigue level on 低 < 中 < 高. */
  function FatigueRank(f: FatigueLevel): nat {
    match f
    case Low => 1
    case Medium => 2
    case High => 3
  }

  /** Position of a sleep quality on 良 < 普通 < 悪 (worse is higher). */
  function SleepRank(q: SleepQuality): nat {
    match q
    case Good => 1
    case Fair => 2
    case Poor => 3
  }

  /** `Number(x) || 0`: a missing or non-numeric value (None) and 0 both give 0. */
  function Coerce(x: Option<int>): int {
    x.GetOr(0)
  }

  /** sRPE = rpe × minutes after coercion. */
  function SessionLoad(rpe: Option<int>, minutes: Option<int>): (load: int)
    ensures rpe.None? || minutes.None? ==> load == 0
    ensures rpe.Some? && minutes.Some? ==> load == rpe.value * minutes.value
  {
    Coerce(rpe) * Coerce(minutes)
  }

  /** Points for the session load: thresholds 700 and 450, both inclusive. */
  function LoadPoints(load: int): (p: nat)
    ensures p == 2 <==> load >= 700
    ensures p == 1 <==> 450 <= load < 700
    ensures p == 0 <==> load < 450
  {
    if load >= 700 then 2 else if load >= 450 then 1 else 0
  }

  function FatiguePoints(f: FatigueLevel): (p: nat)
    ensures p == FatigueRank(f) - 1
  {
    if f == High then 2 else if f == Medium then 1 else 0
  }

  function SleepPoints(q: SleepQuality): (p: nat)
    ensures p == SleepRank(q) - 1
  {
    if q == Poor then 2 else if q == Fair then 1 else 0
  }

  function FlagPoints(movementFlag: bool): nat {
    if movementFlag then 1 else 0
  }

  /** The cumulative score; `movementFlag` absent is false. */
  function Score(rpe: Option<int>, minutes: Option<int>, fatigue: FatigueLevel,
                 sleep: SleepQuality, movementFlag: bool): (s: int)
    ensures 0 <= s <= 7
    ensures s == LoadPoints(SessionLoad(rpe, minutes)) + FatigueRank(fatigue) - 1
                 + SleepRank(sleep) - 1 + FlagPoints(movementFlag)
  {
    var score := 0;
    var score := score + LoadPoints(SessionLoad(rpe, minutes));
    var score := score + FatiguePoints(fatigue);
    var score := score + SleepPoints(sleep);
    score + FlagPoints(movementFlag)
  }

  /** Classification: 5 and above is RED, 3 and 4 are YELLOW, below 3 is GREEN. */
  function Classify(score: int): (k: StatusKey)
    ensures k == RED <==> score >= 5
    ensures k == YELLOW <==> 3 <= score < 5
    ensures k == GREEN <==> score < 3
  {
    if score >= 5 then RED else if score >= 3 then YELLOW else GREEN
  }

  /** Classification never lowers severity when the score rises. */
  lemma ClassifyMonotone(a: int, b: int)
    requires a <= b
    ensures Severity(Classify(a)) <= Severity(Classify(b))
  {
  }

  /** `computeStatus`. */
  function ComputeStatus(rpe: Option<int>, minutes: Option<int>, fatigue: FatigueLevel,
                         sleep: SleepQuality, movementFlag: bool): (st: Status)
    ensures st == StatusOf(st.key)
    ensures st.key == Classify(Score(rpe, minutes, fatigue, sleep, movementFlag))
  {
    var score := Score(rpe, minutes, fatigue, sleep, movementFlag);
    if score >= 5 then StatusOf(RED)
    else if score >= 3 then StatusOf(YELLOW)
    else StatusOf(GREEN)
  }

  /** A missing or non-numeric rpe or minutes adds nothing for load: the
      status then depends on fatigue, sleep and the flag only. */
  lemma MissingLoadScoresZero(rpe: Option<int>, minutes: Option<int>, fatigue: FatigueLevel,
                              sleep: SleepQuality, movementFlag: bool)
    requires rpe.None? || minutes.None?
    ensures ComputeStatus(rpe, minutes, fatigue, sleep, movementFlag).key
            == Classify(FatiguePoints(fatigue) + SleepPoints(sleep) + FlagPoints(movementFlag))
    ensures ComputeStatus(rpe, minutes, fatigue, sleep, movementFlag)
            == ComputeStatus(None, None, fatigue, sleep, movementFlag)
  {
  }

  /** Raising fatigue, worsening sleep, setting the flag or raising the
      session load never lowers the severity of the result. */
  lemma ComputeStatusMonotone(rpe1: Option<int>, minutes1: Option<int>, f1: FatigueLevel, s1: SleepQuality, flag1: bool,
                              rpe2: Option<int>, minutes2: Option<int>, f2: FatigueLevel, s2: SleepQuality, flag2: bool)
    requires SessionLoad(rpe1, minutes1) <= SessionLoad(rpe2, minutes2)
    requires FatigueRank(f1) <= FatigueRank(f2)
    requires SleepRank(s1) <= SleepRank(s2)
    requires flag1 ==> flag2
    ensures Severity(ComputeStatus(rpe1, minutes1, f1, s1, flag1).key)
            <= Severity(ComputeStatus(rpe2, minutes2, f2, s2, flag2).key)
  {
    var a := Score(rpe1, minutes1, f1, s1, flag1);
    var b := Score(rpe2, minutes2, f2, s2, flag2);
    assert LoadPoints(SessionLoad(rpe1, minutes1)) <= LoadPoints(SessionLoad(rpe2, minutes2));
    ClassifyMonotone(a, b);
  }

  /** The scenarios of the unit tests for computeStatus. */
  lemma TestedScenarios()
    ensures ComputeStatus(Some(8), Some(100), High, Poor, true).key == RED
    ensures ComputeStatus(Some(6), Some(70), Medium, Fair, false).key == GREEN
    ensures ComputeStatus(Some(7), Some(80), Medium, Fair, true).key == YELLOW
    ensures ComputeStatus(Some(3), Some(60), Low, Good, false).key == GREEN
    ensures ComputeStatus(Some(8), Some(90), High, Fair, false).key == RED
    ensures ComputeStatus(Some(6), Some(80), Medium, Fair, false).key == YELLOW
  {
  }

  /** The load boundary: a load of 699 adds one point and 700 adds two, which
      here moves the status from YELLOW to RED. */
  lemma LoadBoundary()
    ensures ComputeStatus(Some(1), Some(699), Medium, Fair, true).key == YELLOW
    ensures ComputeStatus(Some(1), Some(700), Medium, Fair, true).key == RED
    ensures ComputeStatus(Some(1), Some(449), Medium, Fair, true).key == YELLOW
    ensures ComputeStatus(Some(1), Some(449), Medium, Fair, false).key == GREEN
  {
  }
}
