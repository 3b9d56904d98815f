/**
 The onboarding of a contact: answers, skips and corrections move it through its stages, and every transition
 keeps the contact in the form whose note reads back.
 */
module ContactOnboarding {
  import opened Integers
  import opened Wrappers
  import opened Text
  import opened ContactNote

  function Rank(s: OnboardingStage): nat {
    match s
    case Name => 0
    case Hopes => 1
    case Resources => 2
    case Needs => 3
    case SharingConsent => 4
    case Complete => 5
  }

  function NextStage(s: OnboardingStage): (r: OnboardingStage)
    ensures Rank(r) == if s.Complete? then 5 else Rank(s) + 1
  {
    match s
    case Name => Hopes
    case Hopes => Resources
    case Resources => Needs
    case Needs => SharingConsent
    case SharingConsent => Complete
    case Complete => Complete
  }

  function WithField(c: Contact, k: nat, value: Option<string>): Contact
    requires k < 4
  {
    match k
    case 0 => c.(name := value)
    case 1 => c.(hopes := value)
    case 2 => c.(resources := value)
    case _ => c.(needs := value)
  }

  lemma WithFieldKeeps(c: Contact, k: nat, value: Option<string>)
    requires k < 4 && Canonical(c) && CanonicalField(value)
    ensures var d := WithField(c, k, value);
      && Canonical(d) && d.stage == c.stage
      && Field(d, k) == value && forall j :: 0 <= j < 4 && j != k ==> Field(d, j) == Field(c, j)
  {
    hide CanonicalField;
  }

  /** The record once its stage is settled: nothing is awaited and it was seen just now. */
  function Settled(c: Contact, stage: OnboardingStage, now: nat): Contact {
    c.(stage := stage, awaitingOnboardingAnswer := false, onboardingTurnsSincePrompt := 0, lastSeen := now)
  }

  function Consenting(c: Contact, consent: bool): Contact {
    c.(sharingEnabled := consent, sharingConsentVersion := if consent then CURRENT_SHARING_CONSENT_VERSION else 0)
  }

  lemma ConsentKeeps(c: Contact, consent: bool)
    requires Canonical(c)
    ensures var d := Consenting(c, consent);
      Canonical(d) && forall j :: 0 <= j < 4 ==> Field(d, j) == Field(c, j)
  {
    hide CanonicalField;
  }

  lemma SeenKeeps(c: Contact, now: nat)
    requires Canonical(c) && now <= U64_MAX
    ensures Canonical(c.(lastSeen := now)) && forall j :: 0 <= j < 4 ==> Field(c.(lastSeen := now), j) == Field(c, j)
  {
    hide CanonicalField;
  }

  lemma SettledKeeps(c: Contact, stage: OnboardingStage, now: nat)
    requires Canonical(c) && now <= U64_MAX
    ensures Canonical(Settled(c, stage, now))
    ensures forall j :: 0 <= j < 4 ==> Field(Settled(c, stage, now), j) == Field(c, j)
  {
    hide CanonicalField;
  }

  /** The stage asks for a field that is still unknown. */
  predicate AsksSomethingNew(c: Contact) { Rank(c.stage) < 4 ==> Field(c, Rank(c.stage)).None? }

  /** The stage is the first one from `next` on that still asks something; everything passed over is known. */
  predicate FirstOpen(c: Contact, next: OnboardingStage) {
    && AsksSomethingNew(c) && Rank(c.stage) >= Rank(next) && (c.stage.Complete? <==> next.Complete?)
    && forall k :: Rank(next) <= k < Rank(c.stage) && k < 4 ==> Field(c, k).Some?
  }

  function AnswerValue(s: string): (r: Option<string>)
    ensures r.Some? ==> r.value == Trim(s) && r.value != ""
  {
    if Trim(s) == "" then None else Some(Trim(s))
  }

  lemma {:induction false} TrimStartTrims(s: string)
    ensures TrimStart(s) != "" ==> !IsWhitespace(TrimStart(s)[0])
  {
    if s != "" {
      TrimStartTrims(s[1..]);
    }
  }

  lemma {:induction false} TrimEndTrims(s: string)
    ensures TrimEnd(s) != "" ==> !IsWhitespace(TrimEnd(s)[|TrimEnd(s)| - 1]) && TrimEnd(s)[0] == s[0]
  {
    if s != "" {
      TrimEndTrims(s[..|s| - 1]);
    }
  }

  /** What an answer stores is trimmed in the sense the note needs. */
  lemma AnswersAreTrimmed(s: string)
    ensures CanonicalField(AnswerValue(s))
  {
    TrimStartTrims(s);
    TrimEndTrims(TrimStart(s));
  }

  function SharingAnswer(s: string): Option<bool> {
    var v := Lower(Trim(s));
    if v in {"yes", "y", "yeah", "yep", "sure", "ok", "okay", "on"} then Some(true)
    else if v in {"no", "n", "nope", "not now", "off"} then Some(false)
    else None
  }

  const YES_WORDS: set<string> := {"yes", "y", "yeah", "yep", "sure", "ok", "okay", "on"}
  const NO_WORDS: set<string> := {"no", "n", "nope", "not now", "off"}

  lemma NobodyMeansBoth(word: string)
    requires word in NO_WORDS
    ensures word !in YES_WORDS
  {
    if |word| > 1 {
      assert word[1] == 'o' || word[1] == 'f';
    }
  }

  /** Whatever case and blanks: these words agree, those refuse, and anything else is no answer. */
  lemma SharingIsAnswered(s: string)
    ensures SharingAnswer(s) == Some(true) <==> Lower(Trim(s)) in YES_WORDS
    ensures SharingAnswer(s) == Some(false) <==> Lower(Trim(s)) in NO_WORDS
  {
    var v := Lower(Trim(s));
    hide Lower, Trim;
    if v in NO_WORDS {
      NobodyMeansBoth(v);
    }
  }

  /** Answers `SKIPPED` to the present question, whatever is known, and to every later one that is still open. */
  function AfterSkipping(c: Contact, k: nat): Option<string>
    requires k < 4
  {
    if k == Rank(c.stage) || (k > Rank(c.stage) && Field(c, k).None?) then Some(SKIPPED) else Field(c, k)
  }

  class ContactRecord {
    var c: Contact

    predicate Valid()
      reads this
    {
      Canonical(c)
    }

    constructor (inboxId: string, now: nat)
      requires 0 < |inboxId| <= 128 && All(inboxId, IsLowerHex) && now <= U64_MAX
      ensures Valid()
    {
      c := Contact(inboxId, now, now, Name, None, None, None, None, false, 0, false, false, 0, 0, 0, None, 0);
    }

    method AdvanceOverKnownFields()
      modifies this
      ensures c == old(c).(stage := c.stage) && FirstOpen(c, old(c.stage))
    {
      while Rank(c.stage) < 4 && Field(c, Rank(c.stage)).Some?
        invariant Rank(c.stage) >= Rank(old(c.stage)) && c == old(c).(stage := c.stage)
        invariant forall k :: Rank(old(c.stage)) <= k < Rank(c.stage) && k < 4 ==> Field(old(c), k).Some?
        invariant Rank(c.stage) <= 4 || c.stage == old(c.stage)
        decreases 5 - Rank(c.stage)
      {
        c := c.(stage := NextStage(c.stage));
      }
      assert forall k :: 0 <= k < 4 ==> Field(c, k) == Field(old(c), k);
    }

    /** On to the first open question from `next` on. */
    method MoveOn(next: OnboardingStage, now: nat)
      requires Canonical(c) && now <= U64_MAX
      modifies this
      ensures Valid() && c == Settled(old(c), c.stage, now) && FirstOpen(c, next)
      ensures forall k :: 0 <= k < 4 ==> Field(c, k) == Field(old(c), k)
    {
      hide Canonical, CanonicalField;
      c := c.(stage := next);
      AdvanceOverKnownFields();
      assert forall k :: 0 <= k < 4 ==> Field(c, k) == Field(old(c), k);
      SettledKeeps(old(c), c.stage, now);
      c := Settled(c, c.stage, now);
    }

    /** An accepted answer is stored where it was asked for, and the next open question is found. */
    method RecordAnswer(answer: string, now: nat) returns (advanced: bool)
      requires Valid() && now <= U64_MAX
      modifies this
      ensures Valid()
      ensures advanced <==> if Rank(old(c.stage)) < 4 then AnswerValue(answer).Some?
                            else old(c.stage).SharingConsent? && SharingAnswer(answer).Some?
      ensures advanced ==> FirstOpen(c, NextStage(old(c.stage)))
      ensures advanced && Rank(old(c.stage)) < 4 ==>
                c == Settled(WithField(old(c), Rank(old(c.stage)), AnswerValue(answer)), c.stage, now)
      ensures advanced && Rank(old(c.stage)) >= 4 ==>
                c == Settled(Consenting(old(c), SharingAnswer(answer).value), Complete, now)
      ensures old(c.stage).SharingConsent? ==>
                && (advanced <==> Lower(Trim(answer)) in YES_WORDS + NO_WORDS)
                && (advanced ==>
                      && c.stage.Complete? && (c.sharingEnabled <==> Lower(Trim(answer)) in YES_WORDS)
                      && c.sharingConsentVersion == if c.sharingEnabled then CURRENT_SHARING_CONSENT_VERSION else 0)
      ensures !advanced ==> c == if old(c.stage).SharingConsent? then old(c).(lastSeen := now) else old(c)
    {
      hide Canonical, WithField, Field, CanonicalField, AnswerValue, SharingAnswer, YES_WORDS, NO_WORDS;
      var rank := Rank(c.stage);
      if rank < 4 {
        AnswersAreTrimmed(answer);
        var value := AnswerValue(answer);
        if value.None? {
          return false;
        }
        WithFieldKeeps(c, rank, value);
        c := WithField(c, rank, value);
      } else if c.stage.SharingConsent? {
        SharingIsAnswered(answer);
        var consent := SharingAnswer(answer);
        if consent.None? {
          SeenKeeps(c, now);
          c := c.(lastSeen := now);
          return false;
        }
        ConsentKeeps(c, consent.value);
        c := Consenting(c, consent.value);
      } else {
        return false;
      }
      MoveOn(NextStage(c.stage), now);
      return true;
    }

    method Skip(now: nat)
      requires Valid() && now <= U64_MAX
      modifies this
      ensures Valid()
      ensures old(c.stage).Complete? ==> c == old(c)
      ensures !old(c.stage).Complete? ==> FirstOpen(c, NextStage(old(c.stage)))
      ensures Rank(old(c.stage)) < 4 ==>
                c == Settled(WithField(old(c), Rank(old(c.stage)), Some(SKIPPED)), c.stage, now)
      ensures old(c.stage).SharingConsent? ==> c == Settled(Consenting(old(c), false), Complete, now)
      ensures forall k :: 0 <= k < 4 ==>
                Field(c, k) == if k == Rank(old(c.stage)) then Some(SKIPPED) else Field(old(c), k)
    {
      SkippedIsTrimmed();
      hide Canonical, WithField, Field, CanonicalField;
      if c.stage.Complete? {
        return;
      }
      var rank := Rank(c.stage);
      if rank < 4 {
        WithFieldKeeps(c, rank, Some(SKIPPED));
        c := WithField(c, rank, Some(SKIPPED));
      } else {
        ConsentKeeps(c, false);
        c := Consenting(c, false);
      }
      MoveOn(NextStage(c.stage), now);
    }

    /** Skipping the rest ends onboarding without consent; of the known answers, only the present one is lost. */
    method SkipRemainingOnboarding(now: nat)
      requires Valid() && now <= U64_MAX
      modifies this
      ensures Valid() && c.stage.Complete? && !c.sharingEnabled && c.sharingConsentVersion == 0
      ensures forall k :: 0 <= k < 4 ==> Field(c, k) == AfterSkipping(old(c), k)
    {
      hide Canonical, CanonicalField, Field, WithField;
      while !c.stage.Complete?
        invariant Valid() && Rank(c.stage) >= Rank(old(c.stage)) && (c == old(c) || AsksSomethingNew(c))
        invariant c != old(c) ==> Rank(c.stage) > Rank(old(c.stage))
        invariant forall k :: 0 <= k < 4 ==>
                    Field(c, k) == if k < Rank(c.stage) then AfterSkipping(old(c), k) else Field(old(c), k)
        decreases 5 - Rank(c.stage)
      {
        ghost var before := c;
        Skip(now);
        SkipFills(before, c);
        StillSkipping(old(c), before, c);
      }
      ConsentKeeps(c, false);
      SettledKeeps(Consenting(c, false), c.stage, now);
      c := Settled(Consenting(c, false), c.stage, now);
    }

    /** A correction replaces one field, or clears it when the new text is blank. */
    method SetField(k: nat, value: string, now: nat)
      requires Valid() && k < 4 && now <= U64_MAX
      modifies this
      ensures Valid() && FirstOpen(c, old(c.stage))
      ensures c == Settled(WithField(old(c), k, AnswerValue(value)), c.stage, now)
    {
      hide Canonical, WithField, Field, CanonicalField, AnswerValue;
      AnswersAreTrimmed(value);
      WithFieldKeeps(c, k, AnswerValue(value));
      c := WithField(c, k, AnswerValue(value));
      MoveOn(c.stage, now);
    }

    /** The affinity counts consecutive observed days of one Nature; a foreign identifier changes nothing. */
    method RecordNatureInteraction(affinityId: string, returning: bool, now: nat)
      returns (r: Option<(bool, bool)>)
      requires Valid() && now <= U64_MAX
      modifies this
      ensures Valid()
      ensures r.None? <==> NormalizeAffinityId(affinityId).None?
      ensures c == if r.None? then old(c) else AfterInteraction(old(c), NormalizeAffinityId(affinityId), returning, now)
      ensures r.Some? ==> (r.value.0 <==> old(c.loyaltyLastDay) < now / DAY)
      ensures r.Some? ==> (r.value.1 <==> ReturningAfterPriorDay(old(c), returning, now))
    {
      hide Canonical, CanonicalField, NormalizeAffinityId, Field;
      var id := NormalizeAffinityId(affinityId);
      if id.None? {
        return None;
      }
      InteractionKeeps(c, affinityId, returning, now);
      var today := now / DAY;
      var firstToday := c.loyaltyLastDay < today;
      var prior := returning && c.loyaltyLastDay > 0 && c.loyaltyLastDay < today;
      if firstToday {
        var gain := if prior then 5 else 1;
        c := c.(loyaltyScore := Min(c.loyaltyScore + gain, 100));
        c := c.(loyaltyLastDay := today);
        if c.natureAffinityId == id {
          c := c.(natureAffinityScore := Min(c.natureAffinityScore + 1, 100));
        } else {
          c := c.(natureAffinityId := id);
          c := c.(natureAffinityScore := 1);
        }
      }
      c := c.(lastSeen := now);
      return Some((firstToday, prior));
    }
  }

  // ---------------------------------------------------------------- relationship signals

  const DAY: nat := 86_400

  predicate ReturningAfterPriorDay(c: Contact, returning: bool, now: nat) {
    returning && 0 < c.loyaltyLastDay < now / DAY
  }

  function AfterInteraction(c: Contact, id: Option<string>, returning: bool, now: nat): Contact {
    if c.loyaltyLastDay >= now / DAY then c.(lastSeen := now)
    else
      c.(loyaltyScore := Min(c.loyaltyScore + if ReturningAfterPriorDay(c, returning, now) then 5 else 1, 100),
         loyaltyLastDay := now / DAY, natureAffinityId := id,
         natureAffinityScore := if c.natureAffinityId == id then Min(c.natureAffinityScore + 1, 100) else 1,
         lastSeen := now)
  }

  lemma InteractionKeeps(c: Contact, raw: string, returning: bool, now: nat)
    requires Canonical(c) && now <= U64_MAX && NormalizeAffinityId(raw).Some?
    ensures var d := AfterInteraction(c, NormalizeAffinityId(raw), returning, now);
      Canonical(d) && d.stage == c.stage && forall k :: 0 <= k < 4 ==> Field(d, k) == Field(c, k)
  {
    hide CanonicalField, Lower, Trim;
  }

  /** One observation of a day counts: any later one, of whatever Nature, moves nothing but the last contact. */
  lemma OneGainPerDay(c: Contact, id: Option<string>, returning: bool, now: nat, id': Option<string>, returning': bool,
                      later: nat)
    requires later / DAY <= now / DAY
    ensures AfterInteraction(AfterInteraction(c, id, returning, now), id', returning', later)
            == AfterInteraction(c, id, returning, now).(lastSeen := later)
  {
  }

  datatype Interaction = Interaction(id: Option<string>, returning: bool, now: nat)

  function AfterAll(c: Contact, history: seq<Interaction>): Contact {
    if history == [] then c
    else
      var n := |history| - 1;
      AfterInteraction(AfterAll(c, history[..n]), history[n].id, history[n].returning, history[n].now)
  }

  /** How many interactions of a history were the first ones seen on a later day. */
  function CountedDays(c: Contact, history: seq<Interaction>): nat {
    if history == [] then 0
    else
      var n := |history| - 1;
      CountedDays(c, history[..n])
      + if AfterAll(c, history[..n]).loyaltyLastDay < history[n].now / DAY then 1 else 0
  }

  /**
   What one interaction is worth: the first of a later day earns five points from somebody who returns after a day
   seen before and one from anybody else; the affinity grows with the same Nature and starts again with another one.
   */
  lemma InteractionIsWorth(c: Contact, id: Option<string>, returning: bool, now: nat)
    requires c.loyaltyScore <= 100 && c.natureAffinityScore <= 100
    ensures var d, gain := AfterInteraction(c, id, returning, now), if returning && c.loyaltyLastDay > 0 then 5 else 1;
      if now / DAY <= c.loyaltyLastDay then d == c.(lastSeen := now)
      else
        && (d.loyaltyScore == c.loyaltyScore + gain || (d.loyaltyScore == 100 && c.loyaltyScore + gain > 100))
        && d.natureAffinityId == id
        && (c.natureAffinityId != id ==> d.natureAffinityScore == 1)
        && (c.natureAffinityId == id && c.natureAffinityScore < 100 ==>
              d.natureAffinityScore == c.natureAffinityScore + 1)
        && (c.natureAffinityId == id && c.natureAffinityScore == 100 ==> d.natureAffinityScore == 100)
        && d == c.(loyaltyScore := d.loyaltyScore, loyaltyLastDay := now / DAY, natureAffinityId := id,
                   natureAffinityScore := d.natureAffinityScore, lastSeen := now)
  {
  }

  /** What `days` counted days may make of a record: one to five points each, up to a hundred. */
  predicate Earned(c: Contact, d: Contact, days: nat) {
    && c.loyaltyScore <= d.loyaltyScore <= 100 && d.natureAffinityScore <= 100
    && (d.loyaltyScore >= c.loyaltyScore + days || d.loyaltyScore == 100) && d.loyaltyScore <= c.loyaltyScore + 5 * days
    && d.natureAffinityScore <= c.natureAffinityScore + days
    && (days == 0 ==> d == c.(lastSeen := d.lastSeen))
  }

  lemma InteractionEarns(c: Contact, id: Option<string>, returning: bool, now: nat)
    requires c.loyaltyScore <= 100 && c.natureAffinityScore <= 100
    ensures Earned(c, AfterInteraction(c, id, returning, now), if c.loyaltyLastDay < now / DAY then 1 else 0)
    ensures AfterInteraction(c, id, returning, now).loyaltyLastDay ==
            if c.loyaltyLastDay < now / DAY then now / DAY else c.loyaltyLastDay
  {
  }

  lemma EarnedTwice(c: Contact, d: Contact, e: Contact, m: nat, n: nat)
    requires Earned(c, d, m) && Earned(d, e, n)
    ensures Earned(c, e, m + n)
  {
  }

  /**
   Over any history, in whatever order the clock reports it: every counted day earns one to five points of loyalty,
   up to a hundred; the affinity grows by at most one a counted day; and without one, neither moves.
   */
  lemma {:induction false} SignalsAreEarned(c: Contact, history: seq<Interaction>)
    requires c.loyaltyScore <= 100 && c.natureAffinityScore <= 100
    ensures Earned(c, AfterAll(c, history), CountedDays(c, history))
    ensures forall i :: 0 <= i < |history| ==> history[i].now / DAY <= AfterAll(c, history).loyaltyLastDay
  {
    if history != [] {
      hide AfterInteraction;
      var n := |history| - 1;
      var before := AfterAll(c, history[..n]);
      SignalsAreEarned(c, history[..n]);
      InteractionEarns(before, history[n].id, history[n].returning, history[n].now);
      EarnedTwice(c, before, AfterAll(c, history), CountedDays(c, history[..n]),
                  if before.loyaltyLastDay < history[n].now / DAY then 1 else 0);
    }
  }

  /** Between any two points of a history, loyalty and its day never fall. */
  lemma {:induction false} LoyaltyNeverFalls(c: Contact, history: seq<Interaction>, i: nat, j: nat)
    requires c.loyaltyScore <= 100 && i <= j <= |history|
    ensures AfterAll(c, history[..i]).loyaltyScore <= AfterAll(c, history[..j]).loyaltyScore <= 100
    ensures AfterAll(c, history[..i]).loyaltyLastDay <= AfterAll(c, history[..j]).loyaltyLastDay
    decreases j
  {
    if i < j {
      LoyaltyNeverFalls(c, history, i, j - 1);
    } else if j > 0 {
      LoyaltyNeverFalls(c, history, j - 1, j - 1);
    }
    if j > 0 {
      assert history[..j][..j - 1] == history[..j - 1];
    } else {
      assert history[..0] == [];
    }
  }

  lemma SkipFills(before: Contact, after: Contact)
    requires Rank(before.stage) < 4 ==> Field(after, Rank(before.stage)) == Some(SKIPPED)
    requires !before.stage.Complete? && FirstOpen(after, NextStage(before.stage))
    requires forall k :: 0 <= k < 4 && k != Rank(before.stage) ==> Field(after, k) == Field(before, k)
    ensures Rank(after.stage) > Rank(before.stage) && AsksSomethingNew(after)
    ensures forall k :: Rank(before.stage) <= k < Rank(after.stage) && k < 4 ==>
              Field(after, k) == AfterSkipping(before, k) && (k > Rank(before.stage) ==> Field(before, k).Some?)
  {
  }

  /** One skip further, everything before the stage is as skipping the rest leaves it. */
  lemma StillSkipping(start: Contact, before: Contact, after: Contact)
    requires Rank(start.stage) <= Rank(before.stage) < Rank(after.stage)
    requires before == start || (Rank(before.stage) > Rank(start.stage) && AsksSomethingNew(before))
    requires forall k :: 0 <= k < 4 ==>
               Field(before, k) == if k < Rank(before.stage) then AfterSkipping(start, k) else Field(start, k)
    requires forall k :: Rank(before.stage) <= k < Rank(after.stage) && k < 4 ==>
               Field(after, k) == AfterSkipping(before, k)
    requires forall k :: 0 <= k < 4 && (k < Rank(before.stage) || k >= Rank(after.stage)) ==>
               Field(after, k) == Field(before, k)
    requires forall k :: Rank(before.stage) < k < Rank(after.stage) && k < 4 ==> Field(before, k).Some?
    ensures forall k :: 0 <= k < 4 ==>
              Field(after, k) == if k < Rank(after.stage) then AfterSkipping(start, k) else Field(start, k)
  {
    hide Field;
  }

  lemma SkippedIsTrimmed()
    ensures CanonicalField(Some(SKIPPED))
  {
  }
}
