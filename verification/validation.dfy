/** Profile completeness and input range checks of lib/utils/validation.ts. */
module Validation {
  import opened Wrappers
  import opened Text
  import StatusEngine
  import opened Review

  /** `required.every((key) => String(profile[key] || "").trim())`: every
      field is non-empty after trimming (a missing field reads as ""). */
  function AllFilled(fields: seq<string>): (ok: bool)
    ensures ok <==> forall i :: 0 <= i < |fields| ==> HasContent(fields[i])
  {
    if |fields| == 0 then true
    else
      TrimBlankIff(fields[0]);
      Trim(fields[0]) != "" && AllFilled(fields[1..])
  }

  /** Five required fields are filled exactly when each of them is. */
  lemma AllFilledFive(a: string, b: string, c: string, d: string, e: string)
    ensures AllFilled([a, b, c, d, e])
            <==> HasContent(a) && HasContent(b) && HasContent(c) && HasContent(d) && HasContent(e)
  {
    var xs := [a, b, c, d, e];
    assert xs[0] == a && xs[1] == b && xs[2] == c && xs[3] == d && xs[4] == e;
  }

  /** `isTeamProfileComplete`. */
  function IsTeamProfileComplete(profile: Option<TeamProfile>): (ok: bool)
    ensures ok <==>
      && profile.Some?
      && HasContent(profile.value.category)
      && HasContent(profile.value.level)
      && HasContent(profile.value.weeklySessions)
      && HasContent(profile.value.matchFrequency)
      && HasContent(profile.value.policy)
      && |profile.value.activeDays| > 0
  {
    match profile
    case None => false
    case Some(p) =>
      var required := [p.category, p.level, p.weeklySessions, p.matchFrequency, p.policy];
      var baseComplete := AllFilled(required);
      var daysOk := |p.activeDays| > 0;
      AllFilledFive(p.category, p.level, p.weeklySessions, p.matchFrequency, p.policy);
      baseComplete && daysOk
  }

  /** `isPlayerProfileComplete`; the content of `pastInjuries` is not
      inspected, so ["なし"] is acceptable. */
  function IsPlayerProfileComplete(profile: Option<PlayerProfile>): (ok: bool)
    ensures ok <==>
      && profile.Some?
      && HasContent(profile.value.ageBand)
      && HasContent(profile.value.position)
      && HasContent(profile.value.dominantFoot)
      && HasContent(profile.value.playingStatus)
      && HasContent(profile.value.currentInjuryStatus)
      && |profile.value.pastInjuries| > 0
  {
    match profile
    case None => false
    case Some(p) =>
      var required := [p.ageBand, p.position, p.dominantFoot, p.playingStatus, p.currentInjuryStatus];
      var baseComplete := AllFilled(required);
      var pastInjuriesOk := |p.pastInjuries| > 0;
      AllFilledFive(p.ageBand, p.position, p.dominantFoot, p.playingStatus, p.currentInjuryStatus);
      baseComplete && pastInjuriesOk
  }

  /** A field holding only spaces (the ideographic space included) counts as
      missing. */
  lemma WhitespaceFieldIsMissing(p: TeamProfile, q: PlayerProfile)
    ensures p.category == " \U{3000}\t" ==> !IsTeamProfileComplete(Some(p))
    ensures q.position == "\U{3000}" ==> !IsPlayerProfileComplete(Some(q))
  {
    if p.category == " \U{3000}\t" {
      assert !HasContent(p.category);
    }
    if q.position == "\U{3000}" {
      assert !HasContent(q.position);
    }
  }

  /** Player completeness depends on the history only through its length. */
  lemma PlayerCompletenessIgnoresHistory(q: PlayerProfile, past: seq<string>)
    requires |past| > 0 && |q.pastInjuries| > 0
    ensures IsPlayerProfileComplete(Some(q)) == IsPlayerProfileComplete(Some(q.(pastInjuries := past)))
  {
  }

  /** `isValidRPE`: 0 to 10, both ends included. */
  function IsValidRPE(rpe: int): (ok: bool)
    ensures ok <==> 0 <= rpe <= 10
  {
    rpe >= 0 && rpe <= 10
  }

  /** `isValidMinutes`: 0 to 1440 (a whole day), both ends included. */
  function IsValidMinutes(minutes: int): (ok: bool)
    ensures ok <==> 0 <= minutes <= 1440
  {
    minutes >= 0 && minutes <= 1440
  }

  /** Inputs that pass both range checks give a session load of 0 to 14400. */
  lemma ValidInputsBoundLoad(rpe: int, minutes: int)
    requires IsValidRPE(rpe) && IsValidMinutes(minutes)
    ensures 0 <= StatusEngine.SessionLoad(Some(rpe), Some(minutes)) <= 14400
  {
    assert rpe * minutes <= 10 * minutes;
  }

  /** Unit tests: a full team profile is complete; an empty `activeDays` or
      an empty category makes it incomplete. */
  lemma TeamProfileScenarios()
    ensures IsTeamProfileComplete(Some(TeamProfile("U15", "クラブ（地域）", "3", "週1", ["火", "木", "土"], "バランス")))
    ensures !IsTeamProfileComplete(Some(TeamProfile("U15", "クラブ（地域）", "3", "週1", [], "バランス")))
    ensures !IsTeamProfileComplete(Some(TeamProfile("", "クラブ（地域）", "3", "週1", ["火"], "バランス")))
    ensures !IsTeamProfileComplete(None)
  {
    var t := TeamProfile("U15", "クラブ（地域）", "3", "週1", ["火", "木", "土"], "バランス");
    assert t.category[0] == 'U' && t.level[0] == 'ク' && t.weeklySessions[0] == '3';
    assert t.matchFrequency[0] == '週' && t.policy[0] == 'バ';
    assert !IsWhitespace(t.category[0]) && !IsWhitespace(t.level[0]);
    assert !IsWhitespace(t.weeklySessions[0]) && !IsWhitespace(t.matchFrequency[0]);
    assert !IsWhitespace(t.policy[0]);
  }

  /** Unit tests: a full player profile with history ["なし"] is complete; an
      empty history makes it incomplete. */
  lemma PlayerProfileScenarios()
    ensures IsPlayerProfileComplete(Some(PlayerProfile("高校生", "MF", "右", "交代中心", "問題なし", ["なし"])))
    ensures !IsPlayerProfileComplete(Some(PlayerProfile("高校生", "MF", "右", "交代中心", "問題なし", [])))
    ensures !IsPlayerProfileComplete(None)
  {
    var q := PlayerProfile("高校生", "MF", "右", "交代中心", "問題なし", ["なし"]);
    assert q.ageBand[0] == '高' && q.position[0] == 'M' && q.dominantFoot[0] == '右';
    assert q.playingStatus[0] == '交' && q.currentInjuryStatus[0] == '問';
    assert !IsWhitespace(q.ageBand[0]) && !IsWhitespace(q.position[0]);
    assert !IsWhitespace(q.dominantFoot[0]) && !IsWhitespace(q.playingStatus[0]);
    assert !IsWhitespace(q.currentInjuryStatus[0]);
  }

  /** Unit tests: the range checks at and just beyond their bounds. */
  lemma RangeScenarios()
    ensures IsValidRPE(0) && IsValidRPE(5) && IsValidRPE(10) && !IsValidRPE(-1) && !IsValidRPE(11)
    ensures IsValidMinutes(0) && IsValidMinutes(90) && IsValidMinutes(1440)
    ensures !IsValidMinutes(-1) && !IsValidMinutes(1441)
  {
  }
}
