/** The review synthesiser of lib/logic/buildReview.ts: a hedged advisory
    text built from the status, a caller-supplied trend phrase, the team and
    player profiles and an optional period-over-period comparison. */
module Review {
  import opened Wrappers
  import opened Text
  import opened StatusEngine
  import Injuries

  datatype TeamProfile = TeamProfile(
    category: string,
    level: string,
    weeklySessions: string,
    matchFrequency: string,
    activeDays: seq<string>,
    policy: string)

  datatype PlayerProfile = PlayerProfile(
    ageBand: string,
    position: string,
    dominantFoot: string,
    playingStatus: string,
    currentInjuryStatus: string,
    pastInjuries: seq<string>)

  /** Window aggregates prepared by the caller: the comparison window's mean
      sRPE (None when it had no data) and mean fatigue tier, against the
      current window's. */
  datatype ComparisonData = ComparisonData(
    periodLabel: string,
    avgSRPE: Option<real>,
    currentAvgSRPE: real,
    avgFatigue: Option<FatigueLevel>,
    currentAvgFatigue: FatigueLevel)

  datatype BuildReviewParams = BuildReviewParams(
    status: Status,
    trend: string,
    teamProfile: Option<TeamProfile>,
    playerProfile: Option<PlayerProfile>,
    comparison: Option<ComparisonData>)

  // Team policies and current-injury states the review reacts to.
  const SAFETY_FIRST: string := "安全重視"
  const INTENSITY_FIRST: string := "強度重視"
  const LIMITED: string := "制限あり"
  const IN_REHAB: string := "リハビリ中"
  const RECENTLY_RETURNED: string := "復帰直後（2週間以内）"
  const PAIN_CAN_PLAY: string := "痛みあり（プレー可）"

  const TONE_SAFE: string := "安全側で"
  const TONE_INTENSITY: string := "強度を維持しつつ"
  const TONE_BALANCE: string := "バランスを取りつつ"

  const CAUTION_LIMITED: string := "制限がある前提で、負荷の上限を低めに設定することを検討してください。"
  const CAUTION_RETURN: string := "復帰直後は急な負荷増加を避け、強度の上げ方を段階的にすることを検討してください。"
  const CAUTION_RECOVERY: string := "痛み/既往がある場合は、高強度の量を増やす前に回復状況の確認を優先してください。"

  /** `teamProfile?.policy`, with an absent profile read as "". */
  function PolicyOf(team: Option<TeamProfile>): string {
    match team
    case Some(t) => t.policy
    case None => ""
  }

  function PlayingOf(player: Option<PlayerProfile>): string {
    match player
    case Some(p) => p.playingStatus
    case None => ""
  }

  function CurrentInjuryOf(player: Option<PlayerProfile>): string {
    match player
    case Some(p) => p.currentInjuryStatus
    case None => ""
  }

  function PastOf(player: Option<PlayerProfile>): seq<string> {
    match player
    case Some(p) => p.pastInjuries
    case None => []
  }

  /** `hasPastInjury`: some history other than the lone sentinel ["なし"]. */
  function HasPastInjury(past: seq<string>): (b: bool)
    ensures b <==> past != [] && past != [Injuries.NONE]
  {
    |past| > 0 && !(|past| == 1 && past[0] == Injuries.NONE)
  }

  /** For a normalised history, `hasPastInjury` holds exactly when the note
      would list at least one tag. */
  lemma HasPastInjuryNormalized(xs: seq<string>)
    ensures var past := Injuries.NormalizePastInjuries(xs);
            HasPastInjury(past) <==> Without(past, Injuries.NONE) != []
  {
    var past := Injuries.NormalizePastInjuries(xs);
    if HasPastInjury(past) {
      assert Injuries.NONE !in past;
      assert past[0] in Without(past, Injuries.NONE);
    }
  }

  /** The tone chosen from the team policy. */
  function TonePrefix(policy: string): (t: string)
    ensures t == TONE_SAFE <==> policy == SAFETY_FIRST
    ensures t == TONE_INTENSITY <==> policy == INTENSITY_FIRST
    ensures t == TONE_BALANCE <==> policy != SAFETY_FIRST && policy != INTENSITY_FIRST
  {
    if policy == SAFETY_FIRST then TONE_SAFE
    else if policy == INTENSITY_FIRST then TONE_INTENSITY
    else TONE_BALANCE
  }

  function PlayingSentence(playing: string): string {
    "起用状況：" + playing + "。"
  }

  function CurrentSentence(current: string): string {
    "現在：" + current + "。"
  }

  /** The history sentence: the tags other than "なし", joined by "・". */
  function HistorySentence(past: seq<string>): string {
    "既往歴（参考）：" + Join(Without(past, Injuries.NONE), "・") + "。"
  }

  /** The sentences of the profile note: one for each part that applies,
      playing first, then the current state, then the history. */
  function NoteParts(playing: string, current: string, past: seq<string>): (parts: seq<string>)
    ensures forall i :: 0 <= i < |parts| ==> parts[i] != "" && EndsWith(parts[i], "。")
    ensures |parts| == (if playing != "" then 1 else 0) + (if current != "" then 1 else 0)
                       + (if HasPastInjury(past) then 1 else 0)
    ensures playing != "" ==> parts[0] == PlayingSentence(playing)
    ensures current != "" ==> parts[if playing != "" then 1 else 0] == CurrentSentence(current)
    ensures HasPastInjury(past) ==> parts[|parts| - 1] == HistorySentence(past)
  {
    (if playing != "" then [PlayingSentence(playing)] else [])
    + (if current != "" then [CurrentSentence(current)] else [])
    + (if HasPastInjury(past) then [HistorySentence(past)] else [])
  }

  /** `profileNote`. */
  function ProfileNote(playing: string, current: string, past: seq<string>): (note: string)
    ensures note == "" <==> playing == "" && current == "" && !HasPastInjury(past)
    ensures note != "" ==> EndsWith(note, "。")
  {
    var notes := NoteParts(playing, current, past);
    if |notes| > 0 then
      JoinEndsWithLast(notes, " ");
      EndsWithTrans(Join(notes, " "), notes[|notes| - 1], "。");
      Join(notes, " ")
    else ""
  }

  /** The note for every combination of parts: each sentence that applies,
      in playing / current / history order, followed by one space when a
      later one applies too. */
  lemma ProfileNoteText(playing: string, current: string, past: seq<string>)
    ensures var p, c, h := playing != "", current != "", HasPastInjury(past);
            ProfileNote(playing, current, past)
            == (if p then PlayingSentence(playing) + (if c || h then " " else "") else "")
               + (if c then CurrentSentence(current) + (if h then " " else "") else "")
               + (if h then HistorySentence(past) else "")
  {
    JoinPresent(playing != "", current != "", HasPastInjury(past),
                PlayingSentence(playing), CurrentSentence(current), HistorySentence(past));
  }

  /** Joining the present ones of three parts with spaces. */
  lemma JoinPresent(p: bool, c: bool, h: bool, a: string, b: string, e: string)
    ensures Join((if p then [a] else []) + (if c then [b] else []) + (if h then [e] else []), " ")
            == (if p then a + (if c || h then " " else "") else "")
               + (if c then b + (if h then " " else "") else "")
               + (if h then e else "")
  {
    var parts := (if p then [a] else []) + (if c then [b] else []) + (if h then [e] else []);
    if p && c && h {
      assert parts == [a, b, e];
      JoinThree(a, b, e, " ");
    } else if p && c {
      assert parts == [a, b];
      JoinTwo(a, b, " ");
    } else if p && h {
      assert parts == [a, e];
      JoinTwo(a, e, " ");
    } else if c && h {
      assert parts == [b, e];
      JoinTwo(b, e, " ");
    } else if p {
      assert parts == [a];
    } else if c {
      assert parts == [b];
    } else if h {
      assert parts == [e];
    }
  }

  /** A history of only duplicated sentinels is not normalised and yields an
      empty tag list in the note; normalised histories never do. */
  lemma UnnormalizedHistoryNote()
    ensures ProfileNote("", "", [Injuries.NONE, Injuries.NONE]) == "既往歴（参考）：。"
  {
    assert Without([Injuries.NONE, Injuries.NONE], Injuries.NONE) == [];
  }

  /** `cautionByProfile`: the first matching sentence of the precedence chain. */
  function CautionByProfile(current: string, past: seq<string>): (c: string)
    ensures c == CAUTION_LIMITED <==> current == LIMITED || current == IN_REHAB
    ensures c == CAUTION_RETURN <==>
              current != LIMITED && current != IN_REHAB && current == RECENTLY_RETURNED
    ensures c == CAUTION_RECOVERY <==>
              current != LIMITED && current != IN_REHAB && current != RECENTLY_RETURNED
              && (current == PAIN_CAN_PLAY || HasPastInjury(past))
    ensures c == "" <==>
              current != LIMITED && current != IN_REHAB && current != RECENTLY_RETURNED
              && current != PAIN_CAN_PLAY && !HasPastInjury(past)
  {
    var isReturn := current == RECENTLY_RETURNED;
    var isLimited := current == LIMITED || current == IN_REHAB;
    var isPain := current == PAIN_CAN_PLAY;
    if isLimited then CAUTION_LIMITED
    else if isReturn then CAUTION_RETURN
    else if isPain || HasPastInjury(past) then CAUTION_RECOVERY
    else ""
  }

  /** `Math.round`: the nearest integer, halves rounded up. */
  function Round(x: real): (r: int)
    ensures r as real - 0.5 <= x < r as real + 0.5
  {
    (x + 0.5).Floor
  }

  function Abs(n: int): nat {
    if n < 0 then -n else n
  }

  /** `diffPercent`: the rounded percentage change from `avg` to `current`,
      0 when `avg` is not positive. */
  function DiffPercent(avg: real, current: real): (p: int)
    ensures avg <= 0.0 ==> p == 0
    ensures avg > 0.0 ==> p as real - 0.5 <= (current - avg) / avg * 100.0 < p as real + 0.5
  {
    if avg > 0.0 then Round((current - avg) / avg * 100.0) else 0
  }

  /** How the load moved, with the printed (absolute) percentage. */
  datatype LoadTrend = Increased(percent: nat) | Decreased(percent: nat)

  /** Whether the load comparison reports a change. */
  function LoadChange(c: ComparisonData): (t: Option<LoadTrend>)
    ensures t.Some? <==> c.avgSRPE.Some? && Abs(DiffPercent(c.avgSRPE.value, c.currentAvgSRPE)) >= 10
    ensures t.Some? ==> t.value.percent == Abs(DiffPercent(c.avgSRPE.value, c.currentAvgSRPE))
    ensures t.Some? ==> (t.value.Increased? <==> DiffPercent(c.avgSRPE.value, c.currentAvgSRPE) > 0)
  {
    match c.avgSRPE
    case None => None
    case Some(avg) =>
      var diffPercent := DiffPercent(avg, c.currentAvgSRPE);
      if Abs(diffPercent) >= 10 then
        if diffPercent > 0 then Some(Increased(Abs(diffPercent)))
        else Some(Decreased(Abs(diffPercent)))
      else None
  }

  /** `(current - avg) / avg * 100 >= 9.5` when avg > 0, without the division. */
  lemma PercentThreshold(avg: real, current: real)
    requires avg > 0.0
    ensures DiffPercent(avg, current) >= 10 <==> current * 200.0 >= avg * 219.0
    ensures DiffPercent(avg, current) <= -10 <==> current * 200.0 < avg * 181.0
  {
    var x := (current - avg) / avg * 100.0;
    RoundBounds(x, 10);
    RoundBounds(x, -9);
    ScaledAtLeast(avg, current, 9.5);
    ScaledAtLeast(avg, current, -9.5);
  }

  /** Rounding reaches `n` exactly from `n - 1/2` up. */
  lemma RoundBounds(x: real, n: int)
    ensures Round(x) >= n <==> x >= n as real - 0.5
  {
  }

  /** A relative change compared against a threshold, multiplied out. */
  lemma ScaledAtLeast(avg: real, current: real, t: real)
    requires avg > 0.0
    ensures (current - avg) / avg * 100.0 >= t <==> (current - avg) * 100.0 >= t * avg
  {
    var q := (current - avg) / avg;
    assert q * avg == current - avg;
    if q * 100.0 >= t {
      assert q * 100.0 * avg >= t * avg;
    } else {
      assert q * 100.0 * avg < t * avg;
    }
  }

  /** The load clause as a threshold on the two averages: an increase is
      reported from 109.5% of the comparison mean up, a decrease below 90.5%,
      and nothing in between or when the comparison mean is missing or not
      positive. */
  lemma LoadChangeThresholds(c: ComparisonData)
    ensures c.avgSRPE.None? || c.avgSRPE.value <= 0.0 ==> LoadChange(c).None?
    ensures c.avgSRPE.Some? && c.avgSRPE.value > 0.0 ==>
              ((LoadChange(c).Some? && LoadChange(c).value.Increased?)
               <==> c.currentAvgSRPE * 200.0 >= c.avgSRPE.value * 219.0)
    ensures c.avgSRPE.Some? && c.avgSRPE.value > 0.0 ==>
              ((LoadChange(c).Some? && LoadChange(c).value.Decreased?)
               <==> c.currentAvgSRPE * 200.0 < c.avgSRPE.value * 181.0)
  {
    if c.avgSRPE.Some? && c.avgSRPE.value > 0.0 {
      PercentThreshold(c.avgSRPE.value, c.currentAvgSRPE);
    }
  }

  /** How fatigue moved between the windows. */
  datatype FatigueTrend = Higher | Improved

  /** Whether the fatigue comparison reports a change, on the order 低 < 中 < 高. */
  function FatigueChange(c: ComparisonData): (t: Option<FatigueTrend>)
    ensures t.Some? <==> c.avgFatigue.Some? && c.avgFatigue.value != c.currentAvgFatigue
    ensures t == Some(Higher) <==>
              c.avgFatigue.Some? && FatigueRank(c.currentAvgFatigue) > FatigueRank(c.avgFatigue.value)
  {
    if c.avgFatigue.Some? && c.currentAvgFatigue != c.avgFatigue.value then
      var currentLevel := FatigueRank(c.currentAvgFatigue);
      var prevLevel := FatigueRank(c.avgFatigue.value);
      if currentLevel > prevLevel then Some(Higher)
      else if currentLevel < prevLevel then Some(Improved)
      else None
    else None
  }

  function LoadSentence(periodLabel: string, t: LoadTrend): string {
    match t
    case Increased(p) => periodLabel + "と比較して負荷が" + NatToDecimal(p) + "%増加しています"
    case Decreased(p) => periodLabel + "と比較して負荷が" + NatToDecimal(p) + "%減少しています"
  }

  function FatigueSentence(periodLabel: string, t: FatigueTrend): string {
    match t
    case Higher => "疲労が" + periodLabel + "より高くなっています"
    case Improved => "疲労が" + periodLabel + "より改善しています"
  }

  /** The comparison clauses, load first. */
  function ComparisonParts(c: ComparisonData): seq<string> {
    (match LoadChange(c)
     case Some(t) => [LoadSentence(c.periodLabel, t)]
     case None => [])
    + (match FatigueChange(c)
       case Some(t) => [FatigueSentence(c.periodLabel, t)]
       case None => [])
  }

  /** `comparisonText`. */
  function ComparisonText(comparison: Option<ComparisonData>): (text: string)
    ensures text == "" <==> comparison.None?
                            || (LoadChange(comparison.value).None? && FatigueChange(comparison.value).None?)
    ensures text != "" ==> EndsWith(text, "。")
  {
    match comparison
    case None => ""
    case Some(c) =>
      var parts := ComparisonParts(c);
      if |parts| > 0 then Join(parts, "。") + "。" else ""
  }

  /** The comparison text is empty without a reported change, one clause
      plus "。" for one change, and load + "。" + fatigue + "。" for both. */
  lemma ComparisonTextShape(comparison: Option<ComparisonData>)
    ensures comparison.None? ==> ComparisonText(comparison) == ""
    ensures comparison.Some? ==>
      var c := comparison.value;
      var text := ComparisonText(comparison);
      match (LoadChange(c), FatigueChange(c))
      case (None, None) => text == ""
      case (Some(l), None) => text == LoadSentence(c.periodLabel, l) + "。"
      case (None, Some(f)) => text == FatigueSentence(c.periodLabel, f) + "。"
      case (Some(l), Some(f)) =>
        text == LoadSentence(c.periodLabel, l) + "。" + FatigueSentence(c.periodLabel, f) + "。"
  {
    if comparison.Some? {
      var c := comparison.value;
      match (LoadChange(c), FatigueChange(c))
      case (Some(l), Some(f)) =>
        var a, b := LoadSentence(c.periodLabel, l), FatigueSentence(c.periodLabel, f);
        assert ComparisonParts(c) == [a, b];
        assert [a, b][1..] == [b];
        assert Join([a, b], "。") == a + "。" + b;
      case _ =>
    }
  }

  /** The load clause prints the absolute percentage with its direction word. */
  lemma LoadSentenceText(periodLabel: string, t: LoadTrend)
    ensures DecimalValue(NatToDecimal(t.percent)) == t.percent
    ensures LoadSentence(periodLabel, t)
            == periodLabel + "と比較して負荷が" + NatToDecimal(t.percent) + "%"
               + (if t.Increased? then "増加" else "減少") + "しています"
  {
    DecimalRoundTrip(t.percent);
  }

  /** The local `join`: a "。" is inserted only when `a` does not already end
      with one; an empty `a` contributes nothing. */
  function JoinSentences(a: string, b: string): (r: string)
    ensures a == "" ==> r == b
    ensures EndsWith(a, "。") ==> r == a + " " + b
    ensures a != "" ==> |a| + 1 + |b| <= |r| <= |a| + 2 + |b| && r[..|a|] == a
                        && EndsWith(r[..|r| - |b| - 1], "。") && r[|r| - |b| - 1..] == " " + b
  {
    if a != "" then a + (if EndsWith(a, "。") then "" else "。") + " " + b else b
  }

  // The fixed parts of the three base sentences.
  const RED_OPENING: string := "直近の負荷と主観疲労が高い状態です。"
  const RED_ADVICE: string := "高強度（特にスプリント/急減速）の量を一時的に調整し、回復時間の確保を検討してください。"
  const YELLOW_OPENING: string := "負荷が増加傾向で、疲労がやや蓄積している可能性があります。"
  const YELLOW_ADVICE: string := "次回は高強度の量・本数を微調整し、翌日の回復（睡眠）を優先してください。"
  const GREEN_OPENING: string := "大きな問題は見られません。"
  const GREEN_ADVICE: string := "現状の強度を維持しつつ、疲労サイン（睡眠/痛み）に注意して継続してください。"

  function Opening(k: StatusKey): string {
    match k
    case RED => RED_OPENING
    case YELLOW => YELLOW_OPENING
    case GREEN => GREEN_OPENING
  }

  function Advice(k: StatusKey): string {
    match k
    case RED => RED_ADVICE
    case YELLOW => YELLOW_ADVICE
    case GREEN => GREEN_ADVICE
  }

  /** Every advice ends a sentence. */
  lemma AdviceEndsSentence(k: StatusKey)
    ensures EndsWith(Advice(k), "。")
  {
  }

  /** `baseReview`, chosen by the status key: the key's fixed opening, then
      `trend` and the tone prefix verbatim, then the key's advice. */
  function BaseReview(key: StatusKey, trend: string, tone: string): (r: string)
    ensures |Opening(key)| + |trend| + |tone| <= |r|
    ensures r[..|Opening(key)|] == Opening(key)
    ensures r[|Opening(key)|..|Opening(key)| + |trend| + |tone|] == trend + tone
    ensures EndsWith(r, Advice(key))
    ensures r == Opening(key) + trend + tone + Advice(key)
  {
    var r := Opening(key) + trend + tone + Advice(key);
    FourPartShape(Opening(key), trend, tone, Advice(key));
    r
  }

  /** Where the parts of `a + b + c + d` sit. */
  lemma FourPartShape(a: string, b: string, c: string, d: string)
    ensures var r := a + b + c + d;
            && r[..|a|] == a
            && r[|a|..|a| + |b| + |c|] == b + c
            && EndsWith(r, d)
  {
    var r := a + b + c + d;
    assert r[..|a|] == a;
    assert r[|a|..|a| + |b| + |c|] == b + c;
    assert r[|r| - |d|..] == d;
  }

  /** The base sentence tells the status keys apart. */
  lemma BaseReviewDeterminesKey(k1: StatusKey, t1: string, p1: string,
                                k2: StatusKey, t2: string, p2: string)
    requires BaseReview(k1, t1, p1) == BaseReview(k2, t2, p2)
    ensures k1 == k2
  {
    BaseReviewStartsWithOpening(k1, t1, p1);
    BaseReviewStartsWithOpening(k2, t2, p2);
    OpeningsDiffer(k1, k2);
  }

  /** The base sentence begins with the first character of its opening. */
  lemma BaseReviewStartsWithOpening(k: StatusKey, trend: string, tone: string)
    ensures |BaseReview(k, trend, tone)| > 0
    ensures BaseReview(k, trend, tone)[0] == Opening(k)[0]
  {
    var o := Opening(k);
    OpeningNonEmpty(k);
    PrefixHead(BaseReview(k, trend, tone), o);
  }

  lemma OpeningNonEmpty(k: StatusKey)
    ensures |Opening(k)| > 0
  {
  }

  lemma PrefixHead(r: string, o: string)
    requires |o| > 0 && |o| <= |r| && r[..|o|] == o
    ensures r[0] == o[0]
  {
    assert r[..|o|][0] == r[0];
  }

  /** The three openings start with different characters. */
  lemma OpeningsDiffer(k1: StatusKey, k2: StatusKey)
    ensures Opening(k1)[0] == Opening(k2)[0] ==> k1 == k2
  {
    assert RED_OPENING[0] == '直' && YELLOW_OPENING[0] == '負' && GREEN_OPENING[0] == '大';
  }

  /** The review body: base sentence, then the comparison text and the
      profile caution, each after a space when present. */
  function Body(params: BuildReviewParams): string {
    var past := PastOf(params.playerProfile);
    var comparisonText := ComparisonText(params.comparison);
    var caution := CautionByProfile(CurrentInjuryOf(params.playerProfile), past);
    BaseReview(params.status.key, params.trend, TonePrefix(PolicyOf(params.teamProfile)))
    + (if comparisonText != "" then " " + comparisonText else "")
    + (if caution != "" then " " + caution else "")
  }

  /** `buildReviewWithProfiles`: the whole review is the body, preceded by
      the profile note and one space when there is a note; joining adds no
      extra "。" because the note already ends with one. */
  function BuildReviewWithProfiles(params: BuildReviewParams): (r: string)
    ensures var note := ProfileNote(PlayingOf(params.playerProfile),
                                    CurrentInjuryOf(params.playerProfile),
                                    PastOf(params.playerProfile));
            r == if note == "" then Body(params) else note + " " + Body(params)
  {
    var policy := PolicyOf(params.teamProfile);
    var playing := PlayingOf(params.playerProfile);
    var currentInjury := CurrentInjuryOf(params.playerProfile);
    var past := PastOf(params.playerProfile);
    var tonePrefix := TonePrefix(policy);
    var profileNote := ProfileNote(playing, currentInjury, past);
    var cautionByProfile := CautionByProfile(currentInjury, past);
    var comparisonText := ComparisonText(params.comparison);
    var baseReview := BaseReview(params.status.key, params.trend, tonePrefix);
    var reviewWithComparison :=
      if comparisonText != "" then baseReview + " " + comparisonText else baseReview;
    AssembleShape(profileNote, baseReview, comparisonText, cautionByProfile);
    JoinSentences(
      profileNote,
      reviewWithComparison + (if cautionByProfile != "" then " " + cautionByProfile else ""))
  }

  /** The assembly step of `buildReviewWithProfiles` on its parts: joining a
      note that ends its sentence puts exactly one space before the body. */
  lemma AssembleShape(note: string, base: string, comparison: string, caution: string)
    requires note != "" ==> EndsWith(note, "。")
    ensures var body := base + (if comparison != "" then " " + comparison else "")
                        + (if caution != "" then " " + caution else "");
            JoinSentences(note, (if comparison != "" then base + " " + comparison else base)
                                + (if caution != "" then " " + caution else ""))
            == if note == "" then body else note + " " + body
  {
    var body := base + (if comparison != "" then " " + comparison else "")
                + (if caution != "" then " " + caution else "");
    assert (if comparison != "" then base + " " + comparison else base)
           + (if caution != "" then " " + caution else "") == body;
  }

  /** Every review ends a sentence: its last part is the profile caution,
      the comparison text or the key's advice, and each ends with "。". */
  lemma BuildReviewEndsSentence(params: BuildReviewParams)
    ensures EndsWith(BuildReviewWithProfiles(params), "。")
  {
    var key := params.status.key;
    var comparisonText := ComparisonText(params.comparison);
    var caution := CautionByProfile(CurrentInjuryOf(params.playerProfile), PastOf(params.playerProfile));
    var base := BaseReview(key, params.trend, TonePrefix(PolicyOf(params.teamProfile)));
    AdviceEndsSentence(key);
    EndsWithTrans(base, Advice(key), "。");
    PartsEndSentence(ProfileNote(PlayingOf(params.playerProfile),
                                 CurrentInjuryOf(params.playerProfile),
                                 PastOf(params.playerProfile)),
                     base, comparisonText, caution);
  }

  /** The assembled review ends a sentence when each present part does. */
  lemma PartsEndSentence(note: string, base: string, comparison: string, caution: string)
    requires EndsWith(base, "。")
    requires comparison != "" ==> EndsWith(comparison, "。")
    requires caution != "" ==> EndsWith(caution, "。")
    ensures var body := base + (if comparison != "" then " " + comparison else "")
                        + (if caution != "" then " " + caution else "");
            EndsWith(if note == "" then body else note + " " + body, "。")
  {
    var withComparison := base + (if comparison != "" then " " + comparison else "");
    if comparison != "" {
      EndsWithAppend(base + " ", comparison, "。");
      assert base + " " + comparison == withComparison;
    }
    var body := withComparison + (if caution != "" then " " + caution else "");
    if caution != "" {
      EndsWithAppend(withComparison + " ", caution, "。");
      assert withComparison + " " + caution == body;
    }
    if note != "" {
      EndsWithAppend(note + " ", body, "。");
    }
  }

  /** Without profiles or comparison the review is the base sentence in the
      balanced tone. */
  lemma BareReview(status: Status, trend: string)
    ensures BuildReviewWithProfiles(BuildReviewParams(status, trend, None, None, None))
            == BaseReview(status.key, trend, TONE_BALANCE)
  {
  }
}
