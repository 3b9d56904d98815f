/**
 The contact note: a printer and a parser on text. The parser looks for a section by the first occurrence of its
 heading anywhere in the text, so a quoted line that ends like a later heading captures that section.
 */
module ContactNote {
  import opened Integers
  import opened Wrappers
  import opened Text

  const NOT_SHARED: string := "_Not shared yet._"
  const SKIPPED: string := "_Skipped._"

  // ---------------------------------------------------------------- text primitives

  predicate IsWhitespace(c: char) {
    || '\t' <= c <= '\r' || c == ' ' || c == '\U{85}' || c == '\U{A0}' || c == '\U{1680}'
    || '\U{2000}' <= c <= '\U{200A}' || c == '\U{2028}' || c == '\U{2029}' || c == '\U{202F}' || c == '\U{205F}'
    || c == '\U{3000}'
  }

  function TrimStart(s: string): string {
    if s != "" && IsWhitespace(s[0]) then TrimStart(s[1..]) else s
  }

  function TrimEnd(s: string): string {
    if s != "" && IsWhitespace(s[|s| - 1]) then TrimEnd(s[..|s| - 1]) else s
  }

  function Trim(s: string): string { TrimEnd(TrimStart(s)) }

  predicate IsTrimmed(s: string) { s != "" && !IsWhitespace(s[0]) && !IsWhitespace(s[|s| - 1]) }

  /** `split_once(pattern)?.1`: what follows the first occurrence. */
  function After(s: string, pattern: string): Option<string> {
    if pattern <= s then Some(s[|pattern|..]) else if s == "" then None else After(s[1..], pattern)
  }

  /** `split(pattern).next()`: what precedes the first occurrence. */
  function Before(s: string, pattern: string): string {
    if pattern <= s || s == "" then "" else [s[0]] + Before(s[1..], pattern)
  }

  function TrimStartNewlines(s: string): string {
    if s != "" && s[0] == '\n' then TrimStartNewlines(s[1..]) else s
  }

  function LineEnd(s: string): (k: nat)
    ensures k <= |s| && (k < |s| ==> s[k] == '\n') && forall i :: 0 <= i < k ==> s[i] != '\n'
  {
    if s == "" || s[0] == '\n' then 0 else 1 + LineEnd(s[1..])
  }

  function WithoutCr(s: string): string { if s != "" && s[|s| - 1] == '\r' then s[..|s| - 1] else s }

  /** `lines()`: a final line break does not start another line. */
  function Lines(s: string): seq<string> {
    if s == "" then []
    else
      var k := LineEnd(s);
      [WithoutCr(s[..k])] + if k < |s| then Lines(s[k + 1..]) else []
  }

  /** Every line followed by a line break. */
  function Unlines(lines: seq<string>): string {
    if lines == [] then "" else lines[0] + "\n" + Unlines(lines[1..])
  }

  function StripPrefix(line: string, prefix: string): string { if prefix <= line then line[|prefix|..] else line }

  predicate EndsWith(s: string, t: string) { |t| <= |s| && s[|s| - |t|..] == t }

  predicate IsLine(s: string) { '\n' !in s && '\r' !in s }

  predicate AreLines(lines: seq<string>) { forall i :: 0 <= i < |lines| ==> IsLine(lines[i]) }

  // ---------------------------------------------------------------- the contact

  datatype OnboardingStage = Name | Hopes | Resources | Needs | SharingConsent | Complete

  function StageName(s: OnboardingStage): string {
    match s
    case Name => "name"
    case Hopes => "hopes"
    case Resources => "resources"
    case Needs => "needs"
    case SharingConsent => "sharing-consent"
    case Complete => "complete"
  }

  function ParseStage(s: string): Option<OnboardingStage> {
    if s == "name" then Some(Name)
    else if s == "hopes" then Some(Hopes)
    else if s == "resources" then Some(Resources)
    else if s == "needs" then Some(Needs)
    else if s == "sharing-consent" then Some(SharingConsent)
    else if s == "complete" then Some(Complete)
    else None
  }

  datatype Contact = Contact(
    inboxId: string,
    firstSeen: nat,
    lastSeen: nat,
    stage: OnboardingStage,
    name: Option<string>,
    hopes: Option<string>,
    resources: Option<string>,
    needs: Option<string>,
    sharingEnabled: bool,
    sharingConsentVersion: nat,
    introductionsPaused: bool,
    awaitingOnboardingAnswer: bool,
    onboardingTurnsSincePrompt: nat,
    loyaltyScore: nat,
    loyaltyLastDay: nat,
    natureAffinityId: Option<string>,
    natureAffinityScore: nat)

  // ---------------------------------------------------------------- printing

  /** `replace("\r\n", "\n").replace('\r', "\n")`. */
  function Unix(s: string): (r: string)
    ensures '\r' !in r
  {
    if s == "" then ""
    else if s[0] == '\r' then "\n" + Unix(if |s| > 1 && s[1] == '\n' then s[2..] else s[1..])
    else [s[0]] + Unix(s[1..])
  }

  function Quoted(lines: seq<string>): seq<string> { seq(|lines|, i requires 0 <= i < |lines| => "> " + lines[i]) }

  /** `markdown_value`, as the lines it prints. */
  function ValueLines(value: Option<string>): seq<string> {
    match value
    case None => [NOT_SHARED]
    case Some(v) => if v == SKIPPED then [SKIPPED] else if v == "" then [NOT_SHARED] else Quoted(Lines(Unix(v)))
  }

  function BoolText(b: bool): string { if b then "true" else "false" }

  const CURRENT_SHARING_CONSENT_VERSION: nat := 1

  function SharingText(c: Contact): string {
    if c.sharingEnabled && c.sharingConsentVersion == CURRENT_SHARING_CONSENT_VERSION
    then "Opted in to private match suggestions."
    else if c.sharingEnabled then "Previous sharing consent needs renewal."
    else "Not opted in."
  }

  /** The note only claims consent that was given under the present terms. */
  lemma SharingIsTold(c: Contact)
    ensures SharingText(c) == "Opted in to private match suggestions."
            <==> c.sharingEnabled && c.sharingConsentVersion == CURRENT_SHARING_CONSENT_VERSION
    ensures SharingText(c) == "Not opted in." <==> !c.sharingEnabled
  {
    var t := SharingText(c);
    assert t[0] in {'O', 'P', 'N'};
  }

  function OrElse(s: Option<string>, t: string): string { if s.Some? then s.value else t }

  function KeyAt(i: nat): string
    requires i < 13
  {
    match i
    case 0 => "inbox_id"
    case 1 => "first_seen_unix"
    case 2 => "last_seen_unix"
    case 3 => "onboarding_stage"
    case 4 => "sharing_enabled"
    case 5 => "sharing_consent_version"
    case 6 => "introductions_paused"
    case 7 => "awaiting_onboarding_answer"
    case 8 => "onboarding_turns_since_prompt"
    case 9 => "loyalty_score"
    case 10 => "loyalty_last_day"
    case 11 => "nature_affinity_id"
    case _ => "nature_affinity_score"
  }

  /** The printed values, in the order of their keys. */
  function Values(c: Contact): (r: seq<string>)
    ensures |r| == 13
  {
    [c.inboxId, Decimal(c.firstSeen), Decimal(c.lastSeen), StageName(c.stage), BoolText(c.sharingEnabled),
     Decimal(c.sharingConsentVersion), BoolText(c.introductionsPaused), BoolText(c.awaitingOnboardingAnswer),
     Decimal(c.onboardingTurnsSincePrompt), Decimal(c.loyaltyScore), Decimal(c.loyaltyLastDay),
     OrElse(c.natureAffinityId, "none"), Decimal(c.natureAffinityScore)]
  }

  function MetadataLine(c: Contact, i: nat): string
    requires i < 13
  {
    KeyAt(i) + ": " + Values(c)[i]
  }

  function Metadata(c: Contact): seq<string> {
    ["---"] + seq(13, i requires 0 <= i < 13 => MetadataLine(c, i)) + ["---", "", "# Contact " + c.inboxId, ""]
  }

  const HEADINGS: seq<string> := [
    "Name", "Hopes and dreams", "Resources they may want to contribute", "Needs and support", "Sharing"]

  function Marker(k: nat): string
    requires k < 5
  {
    "## " + HEADINGS[k]
  }

  function Field(c: Contact, k: nat): Option<string>
    requires k < 4
  {
    if k == 0 then c.name else if k == 1 then c.hopes else if k == 2 then c.resources else c.needs
  }

  /** The note before heading `k`: the metadata and the earlier sections, each followed by an empty line. */
  function Head(c: Contact, k: nat): seq<string>
    requires k <= 4
  {
    if k == 0 then Metadata(c) else Head(c, k - 1) + [Marker(k - 1)] + ValueLines(Field(c, k - 1)) + [""]
  }

  function Foot(c: Contact): seq<string> {
    [Marker(4), SharingText(c), "", "## Local relationship signals",
     "Loyalty score: " + Decimal(c.loyaltyScore) + " / 100",
     "Nature affinity binding: " + OrElse(c.natureAffinityId, "not measured") + " ("
     + Decimal(c.natureAffinityScore) + " / 100)"]
  }

  function NoteLines(c: Contact): seq<string> { Head(c, 4) + Foot(c) }

  function Markdown(c: Contact): string { Unlines(NoteLines(c)) }

  // ---------------------------------------------------------------- parsing

  /** The first line that starts with the key. */
  function MetadataOf(lines: seq<string>, key: string): Option<string> {
    if lines == [] then None
    else if key + ": " <= lines[0] then Some(lines[0][|key| + 2..])
    else MetadataOf(lines[1..], key)
  }

  function ParseBool(s: string): Option<bool> {
    if s == "true" then Some(true) else if s == "false" then Some(false) else None
  }

  function OptionalBool(lines: seq<string>, key: string): Option<bool> {
    match MetadataOf(lines, key)
    case None => Some(false)
    case Some(v) => ParseBool(v)
  }

  function OptionalNumber(lines: seq<string>, key: string, max: nat): Option<nat> {
    match MetadataOf(lines, key)
    case None => Some(0)
    case Some(v) => ParseUnsigned(v, max)
  }

  predicate IsHex(c: char) { IsLowerHex(c) || 'A' <= c <= 'F' }

  predicate IsAffinityChar(c: char) { IsDigit(c) || 'a' <= c <= 'z' || c == '-' || c == '_' }

  function NormalizeInboxId(s: string): Option<string> {
    var n := Lower(Trim(s));
    if n == "" || |n| > 128 || !All(n, IsLowerHex) then None else Some(n)
  }

  function NormalizeAffinityId(s: string): Option<string> {
    var n := Lower(Trim(s));
    if n == "" || |n| > 64 || !All(n, IsAffinityChar) then None else Some(n)
  }

  /** `None` is a parse error, `Some(None)` an absent binding. */
  function OptionalAffinity(lines: seq<string>): Option<Option<string>> {
    match MetadataOf(lines, "nature_affinity_id")
    case None => Some(None)
    case Some(v) =>
      if v == "none" then Some(None)
      else
        match NormalizeAffinityId(v)
        case None => None
        case Some(id) => Some(Some(id))
  }

  function Stripped(lines: seq<string>): seq<string> {
    seq(|lines|, i requires 0 <= i < |lines| => StripPrefix(lines[i], "> "))
  }

  function SectionValue(value: string): Option<string> {
    if value == NOT_SHARED then None
    else if value == SKIPPED then Some(SKIPPED)
    else Some(Join(Stripped(Lines(value))))
  }

  function Section(markdown: string, heading: string): Option<string> {
    match After(markdown, "## " + heading + "\n")
    case None => None
    case Some(rest) => SectionValue(Trim(Before(TrimStartNewlines(rest), "\n\n## ")))
  }

  function Parse(markdown: string): Option<Contact> {
    var ls := Lines(markdown);
    var inbox := MetadataOf(ls, "inbox_id");
    var first := MetadataOf(ls, "first_seen_unix");
    var last := MetadataOf(ls, "last_seen_unix");
    var stage := MetadataOf(ls, "onboarding_stage");
    if inbox.None? || first.None? || last.None? || stage.None? then None
    else
      var inboxId := NormalizeInboxId(inbox.value);
      var firstSeen := ParseUnsigned(first.value, U64_MAX);
      var lastSeen := ParseUnsigned(last.value, U64_MAX);
      var stageValue := ParseStage(stage.value);
      var enabled := OptionalBool(ls, "sharing_enabled");
      var version := OptionalNumber(ls, "sharing_consent_version", U32_MAX);
      var paused := OptionalBool(ls, "introductions_paused");
      var awaiting := OptionalBool(ls, "awaiting_onboarding_answer");
      var turns := OptionalNumber(ls, "onboarding_turns_since_prompt", U32_MAX);
      var loyalty := OptionalNumber(ls, "loyalty_score", U8_MAX);
      var lastDay := OptionalNumber(ls, "loyalty_last_day", U64_MAX);
      var affinity := OptionalAffinity(ls);
      var score := OptionalNumber(ls, "nature_affinity_score", U8_MAX);
      if inboxId.None? || firstSeen.None? || lastSeen.None? || stageValue.None? || enabled.None? || version.None?
         || paused.None? || awaiting.None? || turns.None? || loyalty.None? || lastDay.None? || affinity.None?
         || score.None? then None
      else
        Some(Contact(
          inboxId.value, firstSeen.value, lastSeen.value, stageValue.value,
          Section(markdown, HEADINGS[0]), Section(markdown, HEADINGS[1]), Section(markdown, HEADINGS[2]),
          Section(markdown, HEADINGS[3]),
          enabled.value, version.value, paused.value, awaiting.value, turns.value, Min(loyalty.value, 100),
          lastDay.value, affinity.value, Min(score.value, 100)))
  }

  // ---------------------------------------------------------------- finding a heading line by line

  /** A heading is found in the first line that ends like it. */
  lemma {:induction false} AfterLine(l: string, tail: string, m: string)
    requires '\n' !in l && '\n' !in m && m != ""
    ensures After(l + "\n" + tail, m + "\n") == if EndsWith(l, m) then Some(tail) else After(tail, m + "\n")
  {
    hide EndsWith;
    var s, p := l + "\n" + tail, m + "\n";
    EndsWithTail(l, m);
    if l == "" {
      assert s[1..] == tail && p[0] == m[0];
    } else {
      assert s[1..] == l[1..] + "\n" + tail;
      AfterLine(l[1..], tail, m);
      assert s == (l + "\n") + tail && s[|l| + 1..] == tail;
      if p <= s {
        PrefixIsLine(l, tail, m);
      }
    }
  }

  lemma EndsWithTail(l: string, m: string)
    ensures EndsWith(l, m) <==> l == m || (l != "" && EndsWith(l[1..], m))
  {
    if |m| < |l| {
      assert l[1..][|l[1..]| - |m|..] == l[|l| - |m|..];
    } else if |m| == |l| {
      assert l[|l| - |m|..] == l;
    }
  }

  lemma PrefixIsLine(l: string, tail: string, m: string)
    requires '\n' !in l && '\n' !in m && m + "\n" <= l + "\n" + tail
    ensures l == m
  {
    var s := l + "\n" + tail;
    assert s[|m|] == '\n' && s[|l|] == '\n';
    assert forall k :: 0 <= k < |m| ==> s[k] == m[k];
    assert forall k :: 0 <= k < |l| ==> s[k] == l[k];
    assert s[..|m|] == m && s[..|l|] == l;
  }

  /** Lines that do not end like the heading are passed over. */
  lemma {:induction false} AfterLines(ls: seq<string>, hit: string, tail: string, m: string)
    requires '\n' !in m && m != "" && '\n' !in hit && EndsWith(hit, m)
    requires forall i :: 0 <= i < |ls| ==> '\n' !in ls[i] && !EndsWith(ls[i], m)
    ensures After(Unlines(ls) + hit + "\n" + tail, m + "\n") == Some(tail)
  {
    if ls == [] {
      assert Unlines(ls) + hit + "\n" + tail == hit + "\n" + tail;
      AfterLine(hit, tail, m);
    } else {
      var rest := Unlines(ls[1..]) + hit + "\n" + tail;
      assert Unlines(ls) + hit + "\n" + tail == ls[0] + "\n" + rest;
      AfterLine(ls[0], rest, m);
      AfterLines(ls[1..], hit, tail, m);
    }
  }

  // ---------------------------------------------------------------- where a section ends

  /** No line break is followed by another one, also not at the end. */
  ghost predicate NoEmptyLine(t: string) {
    && (forall i, j :: 0 <= i < j < |t| && j == i + 1 ==> !(t[i] == '\n' && t[j] == '\n'))
    && (t != "" ==> t[|t| - 1] != '\n')
  }

  lemma NotPrefix(p: string, s: string)
    requires |p| > 1 && |s| > 1 && (s[0] != p[0] || s[1] != p[1])
    ensures !(p <= s)
  {
  }

  lemma {:induction false} BeforeBreak(t: string, tail: string)
    requires NoEmptyLine(t)
    ensures Before(t + "\n\n## " + tail, "\n\n## ") == t
  {
    var s, p := t + "\n\n## " + tail, "\n\n## ";
    if t == "" {
      assert p <= s;
    } else {
      assert t[0] == '\n' ==> |t| > 1 && t[1] != '\n';
      NotPrefix(p, s);
      assert forall i :: 0 <= i < |t[1..]| ==> t[1..][i] == t[i + 1];
      assert s[1..] == t[1..] + "\n\n## " + tail;
      BeforeBreak(t[1..], tail);
    }
  }

  predicate IsBlock(ls: seq<string>) { ls != [] && AreLines(ls) && forall i :: 0 <= i < |ls| ==> ls[i] != "" }

  lemma {:induction false} JoinIsBlock(ls: seq<string>)
    requires IsBlock(ls)
    ensures NoEmptyLine(Join(ls)) && Join(ls) != "" && Join(ls)[0] == ls[0][0]
    ensures Join(ls)[|Join(ls)| - 1] == ls[|ls| - 1][|ls[|ls| - 1]| - 1]
  {
    if |ls| > 1 {
      JoinIsBlock(ls[1..]);
      var l, rest := ls[0], Join(ls[1..]);
      var t := Join(ls);
      assert t == l + "\n" + rest;
      assert forall i :: 0 <= i < |l| ==> t[i] == l[i] && l[i] != '\n';
      forall i, j | 0 <= i && j == i + 1 && j < |t|
        ensures !(t[i] == '\n' && t[j] == '\n')
      {
        if i == |l| {
          assert t[j] == rest[0];
        } else if i > |l| {
          assert t[i] == rest[i - |l| - 1] && t[j] == rest[j - |l| - 1];
        }
      }
      assert t[|t| - 1] == rest[|rest| - 1];
    }
  }

  lemma {:induction false} UnlinesOfBlock(ls: seq<string>, tail: string)
    requires ls != []
    ensures Unlines(ls) + tail == Join(ls) + "\n" + tail
  {
    if |ls| > 1 {
      UnlinesOfBlock(ls[1..], tail);
      assert Unlines(ls) + tail == ls[0] + "\n" + (Unlines(ls[1..]) + tail);
    } else {
      assert Unlines(ls[1..]) == "";
    }
  }

  lemma {:induction false} UnlinesAppend(a: seq<string>, b: seq<string>)
    ensures Unlines(a + b) == Unlines(a) + Unlines(b)
  {
    if a == [] {
      assert a + b == b;
    } else {
      UnlinesAppend(a[1..], b);
      assert (a + b)[1..] == a[1..] + b;
    }
  }

  // ---------------------------------------------------------------- lines

  lemma {:induction false} LineEndAt(l: string, tail: string)
    requires '\n' !in l
    ensures LineEnd(l + "\n" + tail) == |l| && LineEnd(l) == |l|
  {
    if l != "" {
      LineEndAt(l[1..], tail);
      assert (l + "\n" + tail)[1..] == l[1..] + "\n" + tail;
    }
  }

  lemma FirstLine(l: string, tail: string)
    requires IsLine(l)
    ensures Lines(l + "\n" + tail) == [l] + Lines(tail)
    ensures l != "" ==> Lines(l) == [l]
  {
    LineEndAt(l, tail);
    var s := l + "\n" + tail;
    assert s[..|l|] == l && s[|l| + 1..] == tail;
    assert l[..|l|] == l;
  }

  lemma {:induction false} LinesOfJoin(ls: seq<string>)
    requires ls != [] && AreLines(ls) && ls[|ls| - 1] != ""
    ensures Lines(Join(ls)) == ls
  {
    if |ls| > 1 {
      LinesOfJoin(ls[1..]);
      assert Join(ls) == ls[0] + "\n" + Join(ls[1..]);
      FirstLine(ls[0], Join(ls[1..]));
    } else {
      FirstLine(ls[0], "");
    }
  }

  lemma {:induction false} LinesOfUnlines(ls: seq<string>)
    requires AreLines(ls)
    ensures Lines(Unlines(ls)) == ls
  {
    if ls != [] {
      LinesOfUnlines(ls[1..]);
      FirstLine(ls[0], Unlines(ls[1..]));
    }
  }

  lemma {:induction false} LinesAreLines(s: string)
    requires '\r' !in s
    ensures AreLines(Lines(s))
  {
    if s != "" {
      hide Lines, IsLine;
      LinesStep(s);
      if LineEnd(s) < |s| {
        LinesAreLines(s[LineEnd(s) + 1..]);
      }
    }
  }

  lemma {:induction false} LastLine(s: string)
    requires '\r' !in s && s != "" && s[|s| - 1] != '\n'
    ensures Lines(s) != []
    ensures var last := Lines(s)[|Lines(s)| - 1]; last != "" && last[|last| - 1] == s[|s| - 1]
  {
    hide Lines, IsLine;
    var k := LineEnd(s);
    LinesStep(s);
    if k < |s| {
      var rest := s[k + 1..];
      assert rest[|rest| - 1] == s[|s| - 1];
      LastLine(rest);
      assert Lines(s)[|Lines(s)| - 1] == Lines(rest)[|Lines(rest)| - 1];
    } else {
      assert s[..k] == s;
    }
  }

  lemma LinesStep(s: string)
    requires '\r' !in s && s != ""
    ensures var k := LineEnd(s);
      Lines(s) == [s[..k]] + (if k < |s| then Lines(s[k + 1..]) else []) && IsLine(s[..k])
  {
    var k := LineEnd(s);
    assert WithoutCr(s[..k]) == s[..k];
  }

  lemma TrimOfTrimmed(s: string)
    requires IsTrimmed(s)
    ensures Trim(s) == s
  {
  }

  lemma JoinCons(l: string, ls: seq<string>)
    requires ls != []
    ensures Join([l] + ls) == l + "\n" + Join(ls)
  {
    assert ([l] + ls)[1..] == ls;
  }

  /** A text that is a list of lines is the join of its lines. */
  lemma {:induction false} JoinOfLines(s: string)
    requires '\r' !in s && (s != "" ==> s[|s| - 1] != '\n')
    ensures Join(Lines(s)) == s
  {
    if s != "" {
      hide Lines, IsLine, Join;
      var k := LineEnd(s);
      LinesStep(s);
      if k < |s| {
        SplitLine(s, k);
        JoinOfLines(s[k + 1..]);
        SomeLines(s[k + 1..]);
        JoinCons(s[..k], Lines(s[k + 1..]));
      } else {
        assert s[..k] == s;
        JoinOfOne(s);
      }
    }
  }

  lemma SplitLine(s: string, k: nat)
    requires k < |s| && s[k] == '\n' && s[|s| - 1] != '\n' && '\r' !in s
    ensures s == s[..k] + "\n" + s[k + 1..] && s[k + 1..] != ""
    ensures s[k + 1..][|s[k + 1..]| - 1] == s[|s| - 1] && '\r' !in s[k + 1..]
  {
  }

  lemma SomeLines(s: string)
    requires s != ""
    ensures Lines(s) != []
  {
  }

  lemma JoinOfOne(l: string)
    ensures Join([l]) == l
  {
  }

  // ---------------------------------------------------------------- one section

  /** What a section's lines decode to. */
  function Decoded(block: seq<string>): Option<string> {
    if block == [NOT_SHARED] then None
    else if block == [SKIPPED] then Some(SKIPPED)
    else Some(Join(Stripped(block)))
  }

  predicate IsSolid(block: seq<string>) {
    && IsBlock(block) && !IsWhitespace(block[0][0])
    && !IsWhitespace(block[|block| - 1][|block[|block| - 1]| - 1])
  }

  lemma JoinIsOneLine(block: seq<string>, t: string)
    requires IsBlock(block) && IsLine(t) && t != ""
    ensures Join(block) == t <==> block == [t]
  {
    hide Lines;
    LinesOfJoin(block);
    LinesOfJoin([t]);
  }

  lemma MarkersAreLines()
    ensures IsLine(NOT_SHARED) && NOT_SHARED != "" && IsLine(SKIPPED) && SKIPPED != ""
  {
  }

  lemma SolidJoin(block: seq<string>)
    requires IsSolid(block)
    ensures block != [] && Join(block) != "" && IsTrimmed(Join(block)) && Join(block)[0] != '\n'
            && NoEmptyLine(Join(block)) && Lines(Join(block)) == block
  {
    hide IsWhitespace, Lines;
    JoinIsBlock(block);
    LinesOfJoin(block);
    assert IsLine(block[0]) && block[0][0] in block[0];
  }

  lemma BlockDecodes(block: seq<string>)
    requires IsSolid(block)
    ensures SectionValue(Trim(Join(block))) == Decoded(block)
  {
    hide IsWhitespace, IsLine, Lines, Trim, NoEmptyLine, IsTrimmed, Join, Stripped;
    SolidJoin(block);
    TrimOfTrimmed(Join(block));
    MarkersAreLines();
    JoinIsOneLine(block, NOT_SHARED);
    JoinIsOneLine(block, SKIPPED);
  }

  function GapLines(gap: bool): seq<string> { if gap then [""] else [] }

  /** The text after a heading line, up to and past the next heading. */
  function SectionText(gap: bool, block: seq<string>, next: string, rest: seq<string>): string {
    Unlines(GapLines(gap)) + (Join(block) + "\n\n## " + (next + "\n" + Unlines(rest)))
  }

  lemma TextAroundSection(before: seq<string>, hit: string, gap: bool, block: seq<string>, next: string,
                          rest: seq<string>)
    requires block != []
    ensures Unlines(before + [hit] + GapLines(gap) + block + ["", "## " + next] + rest)
            == Unlines(before) + hit + "\n" + SectionText(gap, block, next, rest)
  {
    hide Join, Unlines, GapLines;
    var ending := ["", "## " + next] + rest;
    var afterHit := GapLines(gap) + (block + ending);
    assert before + [hit] + GapLines(gap) + block + ["", "## " + next] + rest == before + ([hit] + afterHit);
    UnlinesAppend(before, [hit] + afterHit);
    UnlinesAppend([hit], afterHit);
    UnlinesAppend(GapLines(gap), block + ending);
    UnlinesAppend(block, ending);
    UnlinesOne(hit);
    UnlinesOfEnding(next, rest);
    UnlinesOfBlock(block, Unlines(ending));
    BreakLine(Join(block), "## " + (next + "\n" + Unlines(rest)));
    Regroup(Unlines(before), hit, SectionText(gap, block, next, rest));
  }

  lemma BreakLine(t: string, u: string)
    ensures t + "\n" + ("\n" + u) == t + ("\n\n" + u)
  {
  }

  lemma Regroup(a: string, h: string, r: string)
    ensures a + ((h + "\n") + r) == a + h + "\n" + r
  {
  }

  lemma UnlinesOfEnding(next: string, rest: seq<string>)
    ensures Unlines(["", "## " + next] + rest) == "\n## " + (next + "\n" + Unlines(rest))
  {
    var ending := ["", "## " + next] + rest;
    assert ending[0] == "" && ending[1..] == ["## " + next] + rest;
    assert ending[1..][0] == "## " + next && ending[1..][1..] == rest;
  }

  /** From the first line that ends like the heading, past one empty line at most, up to the next heading. */
  lemma SectionAt(before: seq<string>, hit: string, gap: bool, block: seq<string>, next: string, rest: seq<string>,
                  heading: string)
    requires IsLine(heading) && IsLine(hit) && EndsWith(hit, "## " + heading)
    requires AreLines(before) && forall i :: 0 <= i < |before| ==> !EndsWith(before[i], "## " + heading)
    requires IsSolid(block)
    ensures Section(Unlines(before + [hit] + GapLines(gap) + block + ["", "## " + next] + rest), heading)
            == Decoded(block)
  {
    hide EndsWith, SectionValue, Decoded, Trim, IsLine, IsSolid, Join, Unlines, IsTrimmed, NoEmptyLine, GapLines, Lines;
    SolidJoin(block);
    TextAroundSection(before, hit, gap, block, next, rest);
    LinesHaveNoBreaks(before, hit, heading);
    AfterLines(before, hit, SectionText(gap, block, next, rest), "## " + heading);
    SkipGap(gap, Join(block) + "\n\n## " + (next + "\n" + Unlines(rest)));
    BeforeBreak(Join(block), next + "\n" + Unlines(rest));
    BlockDecodes(block);
  }

  lemma LinesHaveNoBreaks(before: seq<string>, hit: string, heading: string)
    requires AreLines(before) && IsLine(hit) && IsLine(heading)
    ensures forall i :: 0 <= i < |before| ==> '\n' !in before[i]
    ensures '\n' !in hit && '\n' !in "## " + heading
  {
  }

  lemma UnlinesOne(l: string)
    ensures Unlines([l]) == l + "\n"
  {
    assert Unlines([l][1..]) == "";
  }

  lemma SkipGap(gap: bool, body: string)
    requires body != "" && body[0] != '\n'
    ensures TrimStartNewlines(Unlines(GapLines(gap)) + body) == body
  {
    if gap {
      UnlinesOne("");
      assert ("\n" + body)[1..] == body;
    } else {
      assert Unlines([]) + body == body;
    }
  }

  // ---------------------------------------------------------------- metadata

  predicate CanonicalField(f: Option<string>) { f.Some? ==> IsTrimmed(f.value) }

  /** What the program itself stores: canonical ids, numbers in range, and trimmed fields. */
  predicate Canonical(c: Contact) {
    && 0 < |c.inboxId| <= 128 && All(c.inboxId, IsLowerHex)
    && c.firstSeen <= U64_MAX && c.lastSeen <= U64_MAX && c.loyaltyLastDay <= U64_MAX
    && c.sharingConsentVersion <= U32_MAX && c.onboardingTurnsSincePrompt <= U32_MAX
    && c.loyaltyScore <= 100 && c.natureAffinityScore <= 100
    && (c.natureAffinityId.Some? ==>
          0 < |c.natureAffinityId.value| <= 64 && All(c.natureAffinityId.value, IsAffinityChar))
    && CanonicalField(c.name) && CanonicalField(c.hopes) && CanonicalField(c.resources) && CanonicalField(c.needs)
  }

  /** No hash and no line break: such a line can neither be a heading nor be split. */
  predicate IsPlain(s: string) { '#' !in s && IsLine(s) }

  lemma PlainConcat(a: string, b: string)
    requires IsPlain(a) && IsPlain(b)
    ensures IsPlain(a + b)
  {
  }

  predicate IsKeyChar(c: char) { 'a' <= c <= 'z' || c == '_' }

  predicate IsKey(s: string) { forall i :: 0 <= i < |s| ==> IsKeyChar(s[i]) }

  lemma TimeKeys()
    ensures IsKey("inbox_id")
    ensures IsKey("first_seen_unix")
    ensures IsKey("last_seen_unix")
    ensures IsKey("onboarding_stage")
  {
  }

  lemma ConsentKeys()
    ensures IsKey("sharing_enabled")
    ensures IsKey("sharing_consent_version")
    ensures IsKey("introductions_paused")
  {
  }

  lemma OnboardingKeys()
    ensures IsKey("awaiting_onboarding_answer")
    ensures IsKey("onboarding_turns_since_prompt")
  {
  }

  lemma SignalKeys()
    ensures IsKey("loyalty_score")
    ensures IsKey("loyalty_last_day")
    ensures IsKey("nature_affinity_id")
    ensures IsKey("nature_affinity_score")
  {
  }

  lemma KeyChars(i: nat)
    requires i < 13
    ensures IsKey(KeyAt(i)) && |KeyAt(i)| > 3
  {
    hide IsKey;
    TimeKeys();
    ConsentKeys();
    OnboardingKeys();
    SignalKeys();
  }

  lemma KeysArePlain(i: nat)
    requires i < 13
    ensures IsPlain(KeyAt(i) + ": ") && ':' !in KeyAt(i) && |KeyAt(i)| > 3
  {
    hide KeyAt;
    KeyChars(i);
    PlainConcat(KeyAt(i), ": ");
  }

  lemma KeysDiffer(i: nat, j: nat)
    requires i < j < 13
    ensures KeyAt(i) != KeyAt(j)
  {
    assert |KeyAt(i)| == |KeyAt(j)| ==> KeyAt(i)[0] != KeyAt(j)[0];
  }

  lemma DecimalIsPlain(n: nat)
    ensures IsPlain(Decimal(n))
  {
    assert forall i :: 0 <= i < |Decimal(n)| ==> IsDigit(Decimal(n)[i]);
  }

  lemma ValuesArePlain(c: Contact, i: nat)
    requires Canonical(c) && i < 13
    ensures IsPlain(Values(c)[i])
  {
    DecimalIsPlain(c.firstSeen);
    DecimalIsPlain(c.lastSeen);
    DecimalIsPlain(c.sharingConsentVersion);
    DecimalIsPlain(c.onboardingTurnsSincePrompt);
    DecimalIsPlain(c.loyaltyScore);
    DecimalIsPlain(c.loyaltyLastDay);
    DecimalIsPlain(c.natureAffinityScore);
    StageIsPlain(c.stage);
    AffinityIsPlain(c);
    hide IsPlain, Decimal, StageName, OrElse, BoolText;
    BoolIsPlain(c.sharingEnabled);
    BoolIsPlain(c.introductionsPaused);
    BoolIsPlain(c.awaitingOnboardingAnswer);
    InboxIsPlain(c);
  }

  lemma StageIsPlain(s: OnboardingStage)
    ensures IsPlain(StageName(s))
  {
  }

  lemma BoolIsPlain(b: bool)
    ensures IsPlain(BoolText(b))
  {
  }

  lemma AffinityIsPlain(c: Contact)
    requires Canonical(c)
    ensures IsPlain(OrElse(c.natureAffinityId, "none"))
  {
  }

  lemma MetadataIsPlain(c: Contact, i: nat)
    requires Canonical(c) && i < 13
    ensures IsPlain(MetadataLine(c, i))
  {
    KeysArePlain(i);
    ValuesArePlain(c, i);
    PlainConcat(KeyAt(i) + ": ", Values(c)[i]);
  }

  /** A key is found at its own line and at no other. */
  lemma KeyMatches(key: string, key': string, value: string)
    requires ':' !in key && ':' !in key'
    ensures key + ": " <= key' + ": " + value <==> key == key'
  {
    var line := key' + ": " + value;
    if key + ": " <= line {
      assert line[|key|] == ':' && line[|key'|] == ':';
      assert forall i :: 0 <= i < |key| ==> line[i] == key[i];
      assert forall i :: 0 <= i < |key'| ==> line[i] == key'[i];
      assert line[..|key|] == key && line[..|key'|] == key';
    }
  }

  lemma {:induction false} MetadataFinds(ls: seq<string>, key: string, i: nat)
    requires i < |ls| && key + ": " <= ls[i] && forall j :: 0 <= j < i ==> !(key + ": " <= ls[j])
    ensures MetadataOf(ls, key) == Some(ls[i][|key| + 2..])
  {
    if i > 0 {
      MetadataFinds(ls[1..], key, i - 1);
    }
  }

  lemma MetadataReads(c: Contact, rest: seq<string>, i: nat)
    requires i < 13
    ensures MetadataOf(Metadata(c) + rest, KeyAt(i)) == Some(Values(c)[i])
  {
    hide Values, KeyAt, MetadataOf;
    var ls := Metadata(c) + rest;
    assert ls[i + 1] == MetadataLine(c, i);
    KeysArePlain(i);
    KeyMatches(KeyAt(i), KeyAt(i), Values(c)[i]);
    forall j | 0 <= j < i + 1
      ensures !(KeyAt(i) + ": " <= ls[j])
    {
      if j > 0 {
        assert ls[j] == MetadataLine(c, j - 1);
        KeysArePlain(j - 1);
        KeysDiffer(j - 1, i);
        KeyMatches(KeyAt(i), KeyAt(j - 1), Values(c)[j - 1]);
      } else {
        NoKeyIsRule(KeyAt(i));
      }
    }
    MetadataFinds(ls, KeyAt(i), i + 1);
    assert MetadataLine(c, i)[|KeyAt(i)| + 2..] == Values(c)[i];
  }

  lemma NoKeyIsRule(key: string)
    requires |key| > 3
    ensures !(key + ": " <= "---")
  {
  }

  // ---------------------------------------------------------------- what each section reads back

  /** A field after the line breaks of a note: CR and CRLF become LF. */
  function Normal(f: Option<string>): Option<string> {
    if f.Some? && f.value != SKIPPED then Some(Unix(f.value)) else f
  }

  /** The lines a field contributes as quoted text. */
  function OwnLines(f: Option<string>): seq<string> {
    if f.None? || f.value == SKIPPED then [] else Lines(Unix(f.value))
  }

  function FirstHit(ls: seq<string>, m: string): (r: Option<nat>)
    ensures r.Some? ==> r.value < |ls| && EndsWith(ls[r.value], m)
    ensures r.Some? ==> forall i :: 0 <= i < r.value ==> !EndsWith(ls[i], m)
    ensures r.None? ==> forall i :: 0 <= i < |ls| ==> !EndsWith(ls[i], m)
  {
    if ls == [] then None
    else if EndsWith(ls[0], m) then Some(0)
    else
      match FirstHit(ls[1..], m)
      case None => None
      case Some(i) => Some(i + 1)
  }

  datatype Capture = Capture(field: nat, line: nat)

  /** The first line of the fields from `f` up to `k` that ends like heading `k`. */
  function Captured(c: Contact, k: nat, f: nat): (r: Option<Capture>)
    requires f <= k < 4
    ensures r.Some? ==> f <= r.value.field < k && r.value.line < |OwnLines(Field(c, r.value.field))|
    decreases k - f
  {
    if f == k then None
    else
      match FirstHit(OwnLines(Field(c, f)), Marker(k))
      case Some(i) => Some(Capture(f, i))
      case None => Captured(c, k, f + 1)
  }

  /** What follows a capturing line in its field or, after a last line, the whole next section with its heading. */
  function CapturedText(c: Contact, from: Capture): string
    requires from.field < 3 && from.line < |OwnLines(Field(c, from.field))|
  {
    var ls := OwnLines(Field(c, from.field));
    if from.line + 1 < |ls| then Join(ls[from.line + 1..])
    else Join([Marker(from.field + 1)] + Stripped(ValueLines(Field(c, from.field + 1))))
  }

  /**
   What section `k` reads back as, in terms of the fields: its own value, or, if an earlier field has a line that
   ends like its heading, the text after that line.
   */
  function Reread(c: Contact, k: nat): Option<string>
    requires k < 4
  {
    match Captured(c, k, 0)
    case None => Normal(Field(c, k))
    case Some(from) => Some(CapturedText(c, from))
  }

  lemma {:induction false} UnixEnds(s: string)
    requires IsTrimmed(s)
    ensures Unix(s) != "" && Unix(s)[0] == s[0] && Unix(s)[|Unix(s)| - 1] == s[|s| - 1]
  {
    assert s[0] != '\r';
    if |s| > 1 {
      UnixLast(s);
    }
  }

  lemma {:induction false} UnixLast(s: string)
    requires s != "" && s[|s| - 1] != '\r' && s[|s| - 1] != '\n'
    ensures Unix(s) != "" && Unix(s)[|Unix(s)| - 1] == s[|s| - 1]
  {
    var rest := if s[0] == '\r' && |s| > 1 && s[1] == '\n' then s[2..] else s[1..];
    if |s| > 1 {
      assert rest != "" && rest[|rest| - 1] == s[|s| - 1];
      UnixLast(rest);
    }
  }

  lemma OwnLinesAre(f: Option<string>)
    requires CanonicalField(f) && f.Some? && f.value != SKIPPED
    ensures var ls := OwnLines(f);
      && ls != [] && AreLines(ls) && Join(ls) == Unix(f.value)
      && var last := ls[|ls| - 1]; last != "" && !IsWhitespace(last[|last| - 1])
  {
    hide IsWhitespace, Lines;
    UnixEnds(f.value);
    var s := Unix(f.value);
    assert s[|s| - 1] != '\n' by {
      LineBreakIsWhitespace();
    }
    LinesAreLines(s);
    LastLine(s);
    JoinOfLines(s);
  }

  lemma LineBreakIsWhitespace()
    ensures IsWhitespace('\n') && IsWhitespace('\r') && IsWhitespace(' ') && !IsWhitespace('>') && !IsWhitespace('#')
  {
  }

  /** Quoted lines are a block that reads back as the lines. */
  lemma QuotedIsSolid(ls: seq<string>)
    requires ls != [] && AreLines(ls)
    requires var last := ls[|ls| - 1]; last != "" && !IsWhitespace(last[|last| - 1])
    ensures IsSolid(Quoted(ls)) && Decoded(Quoted(ls)) == Some(Join(ls)) && Stripped(Quoted(ls)) == ls
  {
    hide IsWhitespace;
    LineBreakIsWhitespace();
    var q := Quoted(ls);
    forall i | 0 <= i < |q|
      ensures IsLine(q[i]) && q[i] != "" && q[i][0] == '>' && StripPrefix(q[i], "> ") == ls[i]
    {
      assert IsLine(ls[i]);
      assert q[i] == "> " + ls[i] && "> " <= q[i];
    }
    assert Stripped(q) == ls;
    assert q[0] != NOT_SHARED && q[0] != SKIPPED;
    var last := ls[|ls| - 1];
    assert q[|q| - 1][|q[|q| - 1]| - 1] == last[|last| - 1];
  }

  lemma ValueIsSolid(f: Option<string>)
    requires CanonicalField(f)
    ensures IsSolid(ValueLines(f)) && Decoded(ValueLines(f)) == Normal(f)
  {
    if f.Some? && f.value != SKIPPED {
      hide IsWhitespace, IsSolid, Decoded;
      OwnLinesAre(f);
      QuotedIsSolid(OwnLines(f));
    }
  }

  // ---------------------------------------------------------------- which lines can look like a heading

  lemma MarkerStarts(k: nat)
    requires k < 5
    ensures |Marker(k)| > 2 && Marker(k)[0] == '#' && Marker(k)[1] == '#' && IsLine(HEADINGS[k])
    ensures Marker(k) == "## " + HEADINGS[k] && EndsWith(Marker(k), Marker(k))
  {
  }

  lemma PlainIsNoHeading(l: string, k: nat)
    requires k < 5 && forall i :: 0 < i < |l| ==> l[i] != '#'
    ensures !EndsWith(l, Marker(k))
  {
    hide Marker;
    MarkerStarts(k);
    if |Marker(k)| <= |l| {
      var p := |l| - |Marker(k)|;
      assert l[p..][1] == l[p + 1];
    }
  }

  lemma QuotedHeading(l: string, k: nat)
    requires k < 5
    ensures EndsWith("> " + l, Marker(k)) <==> EndsWith(l, Marker(k))
  {
    hide Marker;
    MarkerStarts(k);
    var q, m := "> " + l, Marker(k);
    if |m| <= |l| {
      assert q[|q| - |m|..] == l[|l| - |m|..];
    } else if |m| <= |q| {
      assert q[|q| - |m|..][0] == q[|q| - |m|];
    }
  }

  lemma OtherHeading(j: nat, k: nat)
    requires j < k < 4
    ensures !EndsWith(Marker(j), Marker(k)) && IsLine(Marker(j))
  {
    if j == 2 {
      assert Marker(2)[20..][0] == 'y';
    }
  }

  predicate NoHit(ls: seq<string>, k: nat)
    requires k < 5
  {
    forall i :: 0 <= i < |ls| ==> !EndsWith(ls[i], Marker(k))
  }

  lemma MetadataHasNoHeading(c: Contact, k: nat)
    requires Canonical(c) && k < 5
    ensures AreLines(Metadata(c)) && NoHit(Metadata(c), k)
  {
    hide Canonical, KeyAt, Values, Marker, EndsWith;
    var ls := Metadata(c);
    forall i | 0 <= i < |ls|
      ensures IsLine(ls[i]) && !EndsWith(ls[i], Marker(k))
    {
      if 1 <= i < 14 {
        MetadataIsPlain(c, i - 1);
        assert ls[i] == MetadataLine(c, i - 1);
      } else if i == 16 {
        InboxIsPlain(c);
        assert ls[i] == "# Contact " + c.inboxId;
      } else {
        assert ls[i] == "---" || ls[i] == "";
      }
      PlainIsNoHeading(ls[i], k);
    }
  }

  lemma InboxIsPlain(c: Contact)
    requires Canonical(c)
    ensures IsPlain(c.inboxId)
  {
  }

  lemma ValueHasNoHeading(f: Option<string>, k: nat)
    requires CanonicalField(f) && k < 5
    ensures AreLines(ValueLines(f))
    ensures FirstHit(OwnLines(f), Marker(k)).None? ==> NoHit(ValueLines(f), k)
  {
    hide Marker, EndsWith, FirstHit, Lines, IsWhitespace;
    if f.None? || f.value == SKIPPED {
      MarkersAreLines();
      assert |ValueLines(f)| == 1;
      PlainIsNoHeading(ValueLines(f)[0], k);
    } else {
      OwnLinesAre(f);
      var ls := OwnLines(f);
      assert ValueLines(f) == Quoted(ls);
      forall i | 0 <= i < |ls|
        ensures IsLine(Quoted(ls)[i]) && (EndsWith(Quoted(ls)[i], Marker(k)) <==> EndsWith(ls[i], Marker(k)))
      {
        assert IsLine(ls[i]);
        QuotedHeading(ls[i], k);
      }
    }
  }

  /** Up to field `j`, only field lines can end like heading `k`. */
  lemma {:induction false} HeadHasNoHeading(c: Contact, k: nat, j: nat)
    requires Canonical(c) && j <= k < 4
    requires forall f :: 0 <= f < j ==> FirstHit(OwnLines(Field(c, f)), Marker(k)).None?
    ensures AreLines(Head(c, j)) && NoHit(Head(c, j), k)
  {
    if j == 0 {
      MetadataHasNoHeading(c, k);
    } else {
      hide Marker, EndsWith, FirstHit, ValueLines, OwnLines, IsLine;
      HeadHasNoHeading(c, k, j - 1);
      OtherHeading(j - 1, k);
      assert CanonicalField(Field(c, j - 1));
      ValueHasNoHeading(Field(c, j - 1), k);
      PlainIsNoHeading("", k);
      EmptyIsLine();
    }
  }

  lemma EmptyIsLine()
    ensures IsLine("")
  {
  }

  function Tail(c: Contact, k: nat): seq<string>
    requires k <= 4
    decreases 4 - k
  {
    if k == 4 then Foot(c) else [Marker(k)] + ValueLines(Field(c, k)) + [""] + Tail(c, k + 1)
  }

  lemma {:induction false} NoteSplits(c: Contact, k: nat)
    requires k <= 4
    ensures NoteLines(c) == Head(c, k) + Tail(c, k) && Tail(c, k) != [] && Tail(c, k)[0] == Marker(k)
    decreases 4 - k
  {
    hide Marker, ValueLines, Field, Metadata, Foot;
    if k < 4 {
      NoteSplits(c, k + 1);
      RegroupSection(Head(c, k), Marker(k), ValueLines(Field(c, k)), Tail(c, k + 1));
    } else {
      FootStarts(c);
    }
  }

  lemma RegroupSection(head: seq<string>, m: string, value: seq<string>, tail: seq<string>)
    ensures (head + [m] + value + [""]) + tail == head + ([m] + value + [""] + tail)
  {
  }

  lemma FootStarts(c: Contact)
    ensures Foot(c) != [] && Foot(c)[0] == Marker(4)
  {
  }

  lemma {:induction false} NotCaptured(c: Contact, k: nat, f: nat)
    requires f <= k < 4 && Captured(c, k, f).None?
    ensures forall g :: f <= g < k ==> FirstHit(OwnLines(Field(c, g)), Marker(k)).None?
    decreases k - f
  {
    if f < k {
      hide FirstHit, OwnLines, Marker, Field;
      NotCaptured(c, k, f + 1);
    }
  }

  lemma {:induction false} CapturedIsFirst(c: Contact, k: nat, f: nat)
    requires f <= k < 4 && Captured(c, k, f).Some?
    ensures var r := Captured(c, k, f).value;
      && FirstHit(OwnLines(Field(c, r.field)), Marker(k)) == Some(r.line)
      && forall g :: f <= g < r.field ==> FirstHit(OwnLines(Field(c, g)), Marker(k)).None?
    decreases k - f
  {
    hide FirstHit, OwnLines, Marker, Field;
    if FirstHit(OwnLines(Field(c, f)), Marker(k)).None? {
      CapturedIsFirst(c, k, f + 1);
    }
  }

  // ---------------------------------------------------------------- the sections of a printed note

  lemma OwnSection(c: Contact, k: nat)
    requires Canonical(c) && k < 4 && Captured(c, k, 0).None?
    ensures Section(Markdown(c), HEADINGS[k]) == Normal(Field(c, k))
  {
    hide Marker, EndsWith, FirstHit, ValueLines, OwnLines, IsLine, Section, IsSolid, Decoded, Normal, CanonicalField,
         Captured, Unlines, Head, Tail, NoteLines, Field, Canonical;
    NotCaptured(c, k, 0);
    HeadHasNoHeading(c, k, k);
    MarkerStarts(k);
    FieldIsCanonical(c, k);
    ValueIsSolid(Field(c, k));
    LineOfMarker(k);
    NoteAround(c, k);
    SectionAt(Head(c, k), Marker(k), false, ValueLines(Field(c, k)), HEADINGS[k + 1], Tail(c, k + 1)[1..], HEADINGS[k]);
  }

  lemma NoteAround(c: Contact, k: nat)
    requires k < 4
    ensures Tail(c, k + 1) != []
    ensures NoteLines(c) == Head(c, k) + [Marker(k)] + GapLines(false) + ValueLines(Field(c, k))
                            + ["", "## " + HEADINGS[k + 1]] + Tail(c, k + 1)[1..]
  {
    hide Marker, ValueLines, Field, Head, NoteLines;
    MarkerStarts(k + 1);
    NoteSplits(c, k);
    NoteSplits(c, k + 1);
  }

  lemma LineOfMarker(k: nat)
    requires k < 5
    ensures IsLine(Marker(k))
  {
    MarkerStarts(k);
    hide Marker;
    LineConcat("## ", HEADINGS[k]);
  }

  /** A captured section: the rest of the capturing field, or the whole next section. */
  lemma CapturedSection(c: Contact, k: nat)
    requires Canonical(c) && k < 4 && Captured(c, k, 0).Some?
    ensures Section(Markdown(c), HEADINGS[k]) == Reread(c, k)
  {
    hide Marker, EndsWith, FirstHit, ValueLines, OwnLines, IsLine, Section, IsSolid, Decoded, Normal, CanonicalField,
         Captured, Unlines, Head, Tail, NoteLines;
    CapturedIsFirst(c, k, 0);
    var f, i := Captured(c, k, 0).value.field, Captured(c, k, 0).value.line;
    var ls := OwnLines(Field(c, f));
    CapturedBefore(c, k, f, i);
    CapturingLine(c, k, f, i);
    MarkerStarts(k);
    MarkerStarts(f + 1);
    MarkerStarts(f + 2);
    NoteAtCapture(c, f, i);
    var before := Head(c, f) + [Marker(f)] + Quoted(ls[..i]);
    if i + 1 < |ls| {
      RestOfField(c, f, i);
      SectionAt(before, "> " + ls[i], false, Quoted(ls[i + 1..]), HEADINGS[f + 1], Tail(c, f + 1)[1..], HEADINGS[k]);
    } else {
      NextSection(c, f + 1);
      var block := [Marker(f + 1)] + ValueLines(Field(c, f + 1));
      SectionAt(before, "> " + ls[i], true, block, HEADINGS[f + 2], Tail(c, f + 2)[1..], HEADINGS[k]);
    }
  }

  lemma CapturedBefore(c: Contact, k: nat, f: nat, i: nat)
    requires Canonical(c) && f < k < 4 && FirstHit(OwnLines(Field(c, f)), Marker(k)) == Some(i)
    requires forall g :: 0 <= g < f ==> FirstHit(OwnLines(Field(c, g)), Marker(k)).None?
    ensures var before := Head(c, f) + [Marker(f)] + Quoted(OwnLines(Field(c, f))[..i]);
      AreLines(before) && NoHit(before, k)
  {
    hide Marker, EndsWith, ValueLines, OwnLines, IsLine, CanonicalField;
    HeadHasNoHeading(c, k, f);
    OtherHeading(f, k);
    var ls := OwnLines(Field(c, f));
    OwnAreLines(c, f);
    forall j | 0 <= j < i
      ensures IsLine(Quoted(ls[..i])[j]) && !EndsWith(Quoted(ls[..i])[j], Marker(k))
    {
      QuotedHeading(ls[j], k);
      QuotedIsLine(ls[j]);
    }
  }

  lemma QuotedIsLine(l: string)
    requires IsLine(l)
    ensures IsLine("> " + l)
  {
  }

  lemma OwnAreLines(c: Contact, f: nat)
    requires Canonical(c) && f < 4
    ensures AreLines(OwnLines(Field(c, f)))
    ensures OwnLines(Field(c, f)) != [] ==>
              && ValueLines(Field(c, f)) == Quoted(OwnLines(Field(c, f)))
              && var ls := OwnLines(Field(c, f)); ls[|ls| - 1] != "" && !IsWhitespace(ls[|ls| - 1][|ls[|ls| - 1]| - 1])
  {
    hide IsWhitespace, Lines;
    assert CanonicalField(Field(c, f));
    if Field(c, f).Some? && Field(c, f).value != SKIPPED {
      OwnLinesAre(Field(c, f));
    }
  }

  lemma CapturingLine(c: Contact, k: nat, f: nat, i: nat)
    requires Canonical(c) && f < k < 4 && FirstHit(OwnLines(Field(c, f)), Marker(k)) == Some(i)
    ensures var l := OwnLines(Field(c, f))[i]; IsLine("> " + l) && EndsWith("> " + l, Marker(k))
  {
    hide Marker, EndsWith, OwnLines, IsLine;
    OwnAreLines(c, f);
    QuotedHeading(OwnLines(Field(c, f))[i], k);
    QuotedIsLine(OwnLines(Field(c, f))[i]);
  }

  lemma RestOfField(c: Contact, f: nat, i: nat)
    requires Canonical(c) && f < 4 && i + 1 < |OwnLines(Field(c, f))|
    ensures var rest := OwnLines(Field(c, f))[i + 1..];
      IsSolid(Quoted(rest)) && Decoded(Quoted(rest)) == Some(Join(rest))
  {
    hide IsWhitespace, OwnLines, IsLine, IsSolid, Decoded;
    OwnAreLines(c, f);
    QuotedIsSolid(OwnLines(Field(c, f))[i + 1..]);
  }

  lemma NextSection(c: Contact, k: nat)
    requires Canonical(c) && k < 4
    ensures var block := [Marker(k)] + ValueLines(Field(c, k));
      IsSolid(block) && Decoded(block) == Some(Join([Marker(k)] + Stripped(ValueLines(Field(c, k)))))
  {
    hide IsWhitespace, ValueLines, IsLine, Marker, CanonicalField;
    assert CanonicalField(Field(c, k));
    ValueIsSolid(Field(c, k));
    MarkerStarts(k);
    LineOfMarker(k);
    LineBreakIsWhitespace();
    var block := [Marker(k)] + ValueLines(Field(c, k));
    assert !("> " <= Marker(k)) && StripPrefix(Marker(k), "> ") == Marker(k);
    assert Stripped(block) == [Marker(k)] + Stripped(ValueLines(Field(c, k)));
  }

  /** The note around line `i` of field `f`. */
  lemma NoteAtCapture(c: Contact, f: nat, i: nat)
    requires Canonical(c) && f < 3 && i < |OwnLines(Field(c, f))|
    ensures var ls := OwnLines(Field(c, f));
      var before := Head(c, f) + [Marker(f)] + Quoted(ls[..i]);
      && Tail(c, f + 1) != [] && Tail(c, f + 2) != []
      && (i + 1 < |ls| ==>
            NoteLines(c) == before + ["> " + ls[i]] + GapLines(false) + Quoted(ls[i + 1..])
                            + ["", Marker(f + 1)] + Tail(c, f + 1)[1..])
      && (i + 1 == |ls| ==>
            NoteLines(c) == before + ["> " + ls[i]] + GapLines(true)
                            + ([Marker(f + 1)] + ValueLines(Field(c, f + 1))) + ["", Marker(f + 2)] + Tail(c, f + 2)[1..])
  {
    hide Marker, OwnLines, ValueLines, Head, NoteLines, Canonical, Field, Foot, IsWhitespace;
    NoteSplits(c, f);
    NoteSplits(c, f + 1);
    NoteSplits(c, f + 2);
    OwnAreLines(c, f);
    var ls := OwnLines(Field(c, f));
    var t1, t2 := Tail(c, f + 1), Tail(c, f + 2);
    QuotedSplits(ls, i);
    MiddleOfField(Head(c, f), Marker(f), Quoted(ls[..i]), "> " + ls[i], Quoted(ls[i + 1..]), t1);
    if i + 1 == |ls| {
      assert Quoted(ls[i + 1..]) == [];
      EndOfField(Head(c, f) + [Marker(f)] + Quoted(ls[..i]), "> " + ls[i], Marker(f + 1), ValueLines(Field(c, f + 1)), t2);
    }
  }

  lemma QuotedSplits(ls: seq<string>, i: nat)
    requires i < |ls|
    ensures Quoted(ls) == Quoted(ls[..i]) + ["> " + ls[i]] + Quoted(ls[i + 1..])
  {
  }

  lemma MiddleOfField(head: seq<string>, m: string, q: seq<string>, hit: string, r: seq<string>, tail: seq<string>)
    requires tail != []
    ensures head + ([m] + (q + [hit] + r) + [""] + tail)
            == head + [m] + q + [hit] + GapLines(false) + r + ["", tail[0]] + tail[1..]
  {
    assert tail == [tail[0]] + tail[1..];
  }

  lemma EndOfField(before: seq<string>, hit: string, m: string, value: seq<string>, tail: seq<string>)
    requires tail != []
    ensures var next := [m] + value + [""] + tail;
            before + [hit] + GapLines(false) + [] + ["", next[0]] + next[1..]
            == before + [hit] + GapLines(true) + ([m] + value) + ["", tail[0]] + tail[1..]
  {
    var next := [m] + value + [""] + tail;
    assert next[1..] == value + [""] + tail;
    assert tail == [tail[0]] + tail[1..];
  }

  /** Every section of every printed note, whatever the fields contain. */
  lemma SectionReads(c: Contact, k: nat)
    requires Canonical(c) && k < 4
    ensures Section(Markdown(c), HEADINGS[k]) == Reread(c, k)
  {
    hide Section, Markdown, Canonical, Captured;
    if Captured(c, k, 0).None? {
      OwnSection(c, k);
    } else {
      CapturedSection(c, k);
    }
  }

  // ---------------------------------------------------------------- the whole note

  lemma FieldIsCanonical(c: Contact, k: nat)
    requires Canonical(c) && k < 4
    ensures CanonicalField(Field(c, k))
  {
  }

  lemma {:induction false} HeadIsLines(c: Contact, k: nat)
    requires Canonical(c) && k <= 4
    ensures AreLines(Head(c, k)) && Metadata(c) <= Head(c, k)
  {
    if k == 0 {
      MetadataHasNoHeading(c, 0);
    } else {
      hide Marker, ValueLines, IsLine, CanonicalField, Metadata, EndsWith, Canonical, Field;
      HeadIsLines(c, k - 1);
      LineOfMarker(k - 1);
      FieldIsCanonical(c, k - 1);
      ValueHasNoHeading(Field(c, k - 1), 0);
      EmptyIsLine();
    }
  }

  lemma LineConcat(a: string, b: string)
    requires IsLine(a) && IsLine(b)
    ensures IsLine(a + b)
  {
  }

  lemma FootIsLines(c: Contact)
    requires Canonical(c)
    ensures AreLines(Foot(c))
  {
    var loyalty, score := Decimal(c.loyaltyScore), Decimal(c.natureAffinityScore);
    DecimalIsPlain(c.loyaltyScore);
    DecimalIsPlain(c.natureAffinityScore);
    LineOfMarker(4);
    SharingIsLine(c);
    AffinityIsLine(c);
    var id := OrElse(c.natureAffinityId, "not measured");
    hide IsLine, Marker, SharingText, OrElse, Canonical;
    LoyaltyTexts();
    AffinityTexts();
    LineConcat("Loyalty score: ", loyalty);
    LineConcat("Loyalty score: " + loyalty, " / 100");
    LineConcat("Nature affinity binding: ", id);
    LineConcat("Nature affinity binding: " + id, " (");
    LineConcat("Nature affinity binding: " + id + " (", score);
    LineConcat("Nature affinity binding: " + id + " (" + score, " / 100)");
    EmptyIsLine();
  }

  lemma OptedInIsLine()
    ensures IsLine("Opted in to private match suggestions.")
  {
  }

  lemma RenewalIsLine()
    ensures IsLine("Previous sharing consent needs renewal.")
  {
  }

  lemma OptedOutIsLine()
    ensures IsLine("Not opted in.")
  {
  }

  lemma SharingIsLine(c: Contact)
    ensures IsLine(SharingText(c))
  {
    hide IsLine;
    OptedInIsLine();
    RenewalIsLine();
    OptedOutIsLine();
  }

  lemma AffinityIsLine(c: Contact)
    requires Canonical(c)
    ensures IsLine(OrElse(c.natureAffinityId, "not measured"))
  {
  }

  lemma LoyaltyTexts()
    ensures IsLine("Loyalty score: ") && IsLine(" / 100") && IsLine("## Local relationship signals")
  {
  }

  lemma AffinityTexts()
    ensures IsLine("Nature affinity binding: ") && IsLine(" (") && IsLine(" / 100)")
  {
  }

  lemma NoteMetadata(c: Contact, i: nat)
    requires Canonical(c) && i < 13
    ensures MetadataOf(Lines(Markdown(c)), KeyAt(i)) == Some(Values(c)[i])
  {
    hide Canonical, Foot, KeyAt, Values, Metadata, Lines, Unlines, IsLine;
    HeadIsLines(c, 4);
    FootIsLines(c);
    LinesOfUnlines(NoteLines(c));
    var head := Head(c, 4);
    var rest := head[|Metadata(c)|..] + Foot(c);
    assert head == Metadata(c) + head[|Metadata(c)|..];
    assert NoteLines(c) == Metadata(c) + rest;
    MetadataReads(c, rest, i);
  }

  lemma {:induction false} LowerIsSame(s: string)
    requires forall i :: 0 <= i < |s| ==> !('A' <= s[i] <= 'Z')
    ensures Lower(s) == s
  {
    assert forall i :: 0 <= i < |s| ==> Lower(s)[i] == s[i];
  }

  lemma IdsAreCanonical(c: Contact)
    requires Canonical(c)
    ensures NormalizeInboxId(c.inboxId) == Some(c.inboxId)
    ensures c.natureAffinityId.Some? ==> NormalizeAffinityId(c.natureAffinityId.value) == c.natureAffinityId
  {
    TrimOfTrimmed(c.inboxId);
    LowerIsSame(c.inboxId);
    if c.natureAffinityId.Some? {
      var id := c.natureAffinityId.value;
      assert IsAffinityChar(id[0]) && IsAffinityChar(id[|id| - 1]);
      TrimOfTrimmed(id);
      LowerIsSame(id);
    }
  }

  lemma StageParses(s: OnboardingStage, b: bool)
    ensures ParseStage(StageName(s)) == Some(s) && ParseBool(BoolText(b)) == Some(b)
  {
  }

  /** What a printed contact parses as; the only losses are captured sections and a binding named "none". */
  function ParsedBack(c: Contact): Contact {
    c.(name := Normal(c.name), hopes := Reread(c, 1), resources := Reread(c, 2), needs := Reread(c, 3),
       natureAffinityId := if c.natureAffinityId == Some("none") then None else c.natureAffinityId)
  }

  lemma Numbers(c: Contact)
    requires Canonical(c)
    ensures ParseUnsigned(Decimal(c.firstSeen), U64_MAX) == Some(c.firstSeen)
    ensures ParseUnsigned(Decimal(c.lastSeen), U64_MAX) == Some(c.lastSeen)
    ensures ParseUnsigned(Decimal(c.sharingConsentVersion), U32_MAX) == Some(c.sharingConsentVersion)
    ensures ParseUnsigned(Decimal(c.onboardingTurnsSincePrompt), U32_MAX) == Some(c.onboardingTurnsSincePrompt)
    ensures ParseUnsigned(Decimal(c.loyaltyScore), U8_MAX) == Some(c.loyaltyScore)
    ensures ParseUnsigned(Decimal(c.loyaltyLastDay), U64_MAX) == Some(c.loyaltyLastDay)
    ensures ParseUnsigned(Decimal(c.natureAffinityScore), U8_MAX) == Some(c.natureAffinityScore)
  {
    DecimalParses(c.firstSeen, U64_MAX);
    DecimalParses(c.lastSeen, U64_MAX);
    DecimalParses(c.sharingConsentVersion, U32_MAX);
    DecimalParses(c.onboardingTurnsSincePrompt, U32_MAX);
    DecimalParses(c.loyaltyScore, U8_MAX);
    DecimalParses(c.loyaltyLastDay, U64_MAX);
    DecimalParses(c.natureAffinityScore, U8_MAX);
  }

  lemma NoteHeader(c: Contact)
    requires Canonical(c)
    ensures var ls := Lines(Markdown(c));
      && MetadataOf(ls, "inbox_id") == Some(c.inboxId)
      && MetadataOf(ls, "first_seen_unix") == Some(Decimal(c.firstSeen))
      && MetadataOf(ls, "last_seen_unix") == Some(Decimal(c.lastSeen))
      && MetadataOf(ls, "onboarding_stage") == Some(StageName(c.stage))
      && MetadataOf(ls, "sharing_enabled") == Some(BoolText(c.sharingEnabled))
      && MetadataOf(ls, "sharing_consent_version") == Some(Decimal(c.sharingConsentVersion))
      && MetadataOf(ls, "introductions_paused") == Some(BoolText(c.introductionsPaused))
  {
    hide Markdown, Lines, MetadataOf, Decimal, BoolText, StageName, Canonical;
    NoteMetadata(c, 0);
    NoteMetadata(c, 1);
    NoteMetadata(c, 2);
    NoteMetadata(c, 3);
    NoteMetadata(c, 4);
    NoteMetadata(c, 5);
    NoteMetadata(c, 6);
  }

  lemma NoteSignals(c: Contact)
    requires Canonical(c)
    ensures var ls := Lines(Markdown(c));
      && MetadataOf(ls, "awaiting_onboarding_answer") == Some(BoolText(c.awaitingOnboardingAnswer))
      && MetadataOf(ls, "onboarding_turns_since_prompt") == Some(Decimal(c.onboardingTurnsSincePrompt))
      && MetadataOf(ls, "loyalty_score") == Some(Decimal(c.loyaltyScore))
      && MetadataOf(ls, "loyalty_last_day") == Some(Decimal(c.loyaltyLastDay))
      && MetadataOf(ls, "nature_affinity_id") == Some(OrElse(c.natureAffinityId, "none"))
      && MetadataOf(ls, "nature_affinity_score") == Some(Decimal(c.natureAffinityScore))
  {
    hide Markdown, Lines, MetadataOf, Decimal, BoolText, StageName, Canonical;
    NoteMetadata(c, 7);
    NoteMetadata(c, 8);
    NoteMetadata(c, 9);
    NoteMetadata(c, 10);
    NoteMetadata(c, 11);
    NoteMetadata(c, 12);
  }

  /** Parsing any printed canonical contact, exactly. */
  lemma ParseOfPrinted(c: Contact)
    requires Canonical(c)
    ensures Parse(Markdown(c)) == Some(ParsedBack(c))
  {
    hide Markdown, Lines, MetadataOf, ParseUnsigned, ParseStage, ParseBool, StageName, BoolText, Decimal,
         NormalizeInboxId, NormalizeAffinityId, Section, Reread, Normal, KeyAt, Values;
    NoteHeader(c);
    NoteSignals(c);
    Numbers(c);
    IdsAreCanonical(c);
    StageParses(c.stage, c.sharingEnabled);
    StageParses(c.stage, c.introductionsPaused);
    StageParses(c.stage, c.awaitingOnboardingAnswer);
    SectionReads(c, 0);
    SectionReads(c, 1);
    SectionReads(c, 2);
    SectionReads(c, 3);
    NameIsNeverCaptured(c);
  }

  lemma NameIsNeverCaptured(c: Contact)
    ensures Reread(c, 0) == Normal(c.name)
  {
  }

  function Normalized(c: Contact): Contact {
    c.(name := Normal(c.name), hopes := Normal(c.hopes), resources := Normal(c.resources), needs := Normal(c.needs))
  }

  /** No earlier field has a line that ends like heading `k`, or what follows the first one is field `k` itself. */
  predicate Unharmed(c: Contact, k: nat)
    requires k < 4
  {
    match Captured(c, k, 0)
    case None => true
    case Some(from) => Normal(Field(c, k)) == Some(CapturedText(c, from))
  }

  /** The note round trip holds exactly when no section is captured by different text and no binding is "none". */
  lemma RoundTripExactly(c: Contact)
    requires Canonical(c)
    ensures Parse(Markdown(c)) == Some(Normalized(c)) <==>
            c.natureAffinityId != Some("none") && Unharmed(c, 1) && Unharmed(c, 2) && Unharmed(c, 3)
  {
    hide Normal, Parse, Markdown, Canonical, Captured, CapturedText;
    ParseOfPrinted(c);
  }

  /** No line of a field ends like the heading of a later section. */
  predicate NoHeadingLines(c: Contact) {
    forall f, k :: 0 <= f < k < 4 ==>
      forall i :: 0 <= i < |OwnLines(Field(c, f))| ==> !EndsWith(OwnLines(Field(c, f))[i], Marker(k))
  }

  lemma {:induction false} NothingCaptured(c: Contact, k: nat, f: nat)
    requires f <= k < 4 && NoHeadingLines(c)
    ensures Captured(c, k, f).None?
    decreases k - f
  {
    if f < k {
      hide OwnLines, Marker, EndsWith;
      NothingCaptured(c, k, f + 1);
    }
  }

  /** Without such lines every note reads back, whatever else its lines look like. */
  lemma RoundTrip(c: Contact)
    requires Canonical(c) && NoHeadingLines(c) && c.natureAffinityId != Some("none")
    ensures Parse(Markdown(c)) == Some(Normalized(c))
  {
    hide Normal, Parse, Markdown, Canonical, Captured, NoHeadingLines;
    NothingCaptured(c, 1, 0);
    NothingCaptured(c, 2, 0);
    NothingCaptured(c, 3, 0);
    RoundTripExactly(c);
  }

  /** A line that is a later heading does capture that section. */
  lemma HeadingLineBreaksTheRoundTrip()
    ensures exists c: Contact :: Canonical(c) && c.natureAffinityId.None? && Parse(Markdown(c)) != Some(Normalized(c))
  {
    var name := Marker(1);
    var c := Contact("a", 0, 0, Hopes, Some(name), None, None, None, false, 0, false, false, 0, 0, 0, None, 0);
    HeadingIsName();
    assert Canonical(c);
    hide Parse, Markdown, Canonical, Marker, EndsWith, OwnLines, IsTrimmed, Reread;
    RoundTripExactly(c);
    HeadingCaptures(c);
  }

  lemma HeadingIsName()
    ensures IsTrimmed(Marker(1)) && Marker(1) != SKIPPED && IsLine(Marker(1)) && Marker(1) != ""
  {
    LineOfMarker(1);
    assert Marker(1)[0] == '#' && Marker(1)[|Marker(1)| - 1] == 's';
  }

  lemma HeadingCaptures(c: Contact)
    requires c.name == Some(Marker(1)) && c.hopes == None
    ensures Reread(c, 1).Some?
  {
    HeadingIsName();
    MarkerStarts(1);
    var name := Marker(1);
    hide Marker, EndsWith, IsTrimmed;
    NoCarriageReturn(name);
    FirstLine(name, "");
    assert OwnLines(c.name) == [name];
    assert FirstHit([name], name) == Some(0);
    assert Captured(c, 1, 0) == Some(Capture(0, 0));
  }

  lemma {:induction false} NoCarriageReturn(s: string)
    requires '\r' !in s
    ensures Unix(s) == s
  {
    if s != "" {
      NoCarriageReturn(s[1..]);
    }
  }
}
