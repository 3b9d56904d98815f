/**
 Source updates and release activation: Git HEAD, the immutable release directories, the active record and the
 state file move in separate durable writes, and an operation may stop between any two of them. Operations hold
 a lock, so they never overlap. A commit is its own history, so its hash is injective; so is the content hash.
 */
module ReleasePromotion {
  import opened Wrappers

  const MAX_DECISIONS: nat := 200

  datatype Commit = Commit(id: nat, parents: seq<Commit>)

  predicate Ancestor(a: Commit, b: Commit) {
    a == b || exists i :: 0 <= i < |b.parents| && Ancestor(a, b.parents[i])
  }

  datatype Sha256 = Sha256(contents: string)

  datatype Manifest = Manifest(commit: Commit, binary: string, sidecar: string, binarySha: Sha256, sidecarSha: Sha256)

  /** A release directory: its manifest, the files that the manifest names, and what else must be there. */
  datatype Release = Release(manifest: Manifest, files: map<string, string>, hasDependencies: bool, executable: bool)

  datatype ActiveRelease = ActiveRelease(commit: Commit, binary: string, sidecar: string)

  datatype Pending = Pending(action: string, previousHead: Commit, candidate: Commit, commits: seq<Commit>,
                             reason: string)

  datatype Decision = Decision(action: string, commit: Commit, reason: string)

  datatype StateFile = StateFile(
    head: Option<Commit>,
    reviewed: Option<Commit>,
    installed: Option<Commit>,
    pending: Option<Pending>,
    decisions: seq<Decision>)

  datatype State = State(head: Commit, releases: map<Commit, Release>, active: Option<ActiveRelease>, file: StateFile)

  // ---------------------------------------------------------------- releases

  const BINARY: string := "uwubot"
  const SIDECAR: string := "agent/dist/index.js"

  /** What `validate_release` demands of the directory of a commit. */
  predicate Complete(r: Release, c: Commit) {
    && r.manifest.commit == c && r.manifest.binary == BINARY && r.manifest.sidecar == SIDECAR
    && BINARY in r.files && SIDECAR in r.files
    && r.manifest.binarySha == Sha256(r.files[BINARY]) && r.manifest.sidecarSha == Sha256(r.files[SIDECAR])
    && r.hasDependencies && r.executable
  }

  predicate ValidRelease(s: State, p: ActiveRelease) {
    && p.commit in s.releases && p.binary == BINARY && p.sidecar == SIDECAR && Complete(s.releases[p.commit], p.commit)
  }

  /** Releases are complete from the moment their directory exists, and the active record names one of them. */
  predicate Valid(s: State) {
    && (forall c :: c in s.releases ==> Complete(s.releases[c], c))
    && (s.active.Some? ==> ValidRelease(s, s.active.value))
  }

  /** A build ends in an assembled directory; its manifest records the files it copied. */
  datatype Build = Failed | Built(binary: string, sidecar: string)

  function Assemble(c: Commit, b: Build): Release
    requires b.Built?
  {
    Release(Manifest(c, BINARY, SIDECAR, Sha256(b.binary), Sha256(b.sidecar)),
            map[BINARY := b.binary, SIDECAR := b.sidecar], true, true)
  }

  function Activation(c: Commit): ActiveRelease { ActiveRelease(c, BINARY, SIDECAR) }

  // ---------------------------------------------------------------- durable writes

  datatype Write =
    | Save(file: StateFile)
    | Move(commit: Commit)
    | Publish(commit: Commit, release: Release)
    | Point(target: ActiveRelease)

  function Trimmed(f: StateFile): StateFile {
    var n := |f.decisions|;
    f.(decisions := if n > MAX_DECISIONS then f.decisions[n - MAX_DECISIONS..] else f.decisions)
  }

  /** Git refuses a move that is not a fast-forward; a directory that exists is not replaced. */
  function Apply(s: State, w: Write): State {
    match w
    case Save(file) => s.(file := Trimmed(file))
    case Move(c) => if Ancestor(s.head, c) then s.(head := c) else s
    case Publish(c, r) => if c in s.releases then s else s.(releases := s.releases[c := r])
    case Point(p) => s.(active := Some(p))
  }

  function Run(s: State, writes: seq<Write>): State {
    if writes == [] then s else Apply(Run(s, writes[..|writes| - 1]), writes[|writes| - 1])
  }

  // ---------------------------------------------------------------- the operations as plans

  function WithHead(s: State): StateFile { s.file.(head := Some(s.head)) }

  function ReleaseWrites(s: State, c: Commit, build: Build): seq<Write> {
    if c !in s.releases && build.Built? then [Publish(c, Assemble(c, build))] else []
  }

  predicate HasRelease(s: State, c: Commit, build: Build) { c in s.releases || build.Built? }

  function Intent(f: StateFile, p: Pending): StateFile { f.(pending := Some(p)) }

  /** The writes that end every operation: announce, move the source if it moves, activate, record. */
  datatype Promotion = Promotion(file: StateFile, pending: Pending, moves: bool, done: StateFile)

  /** An operation: what it writes while nothing is promoted yet, and how it promotes its candidate. */
  datatype Script = Script(preparation: seq<Write>, promotion: Option<Promotion>)

  function PromotionWrites(p: Promotion): seq<Write> {
    [Save(Intent(p.file, p.pending))] + (if p.moves then [Move(p.pending.candidate)] else [])
    + [Point(Activation(p.pending.candidate)), Save(p.done)]
  }

  function Writes(script: Script): seq<Write> {
    script.preparation + if script.promotion.Some? then PromotionWrites(script.promotion.value) else []
  }

  /** Build the release first, then promote it, unless something changed during the build. */
  function BuildScript(s: State, saves: seq<Write>, c: Commit, build: Build, steady: bool, p: Promotion): Script {
    if !HasRelease(s, c, build) then Script(saves, None)
    else if !steady then Script(saves + ReleaseWrites(s, c, build), None)
    else Script(saves + ReleaseWrites(s, c, build), Some(p))
  }

  const UPDATE_INTENT: string := "No local divergence; install the verified prime tip after validation."
  const UPDATE_REASON: string := "No local divergence; installed the verified prime tip after successful validation."

  /** What `update` writes before it builds: the head it found, and the tip it reviewed. */
  function ReviewWrites(s: State, tip: Commit): seq<Write> {
    [Save(WithHead(s)), Save(Trimmed(WithHead(s)).(reviewed := Some(tip)))]
  }

  function UpdatePromotion(s: State, tip: Commit): Promotion {
    var f := Trimmed(Trimmed(WithHead(s)).(reviewed := Some(tip)));
    var done := f.(head := Some(tip), installed := Some(tip), pending := None,
                   decisions := f.decisions + [Decision("fast-forward installed", tip, UPDATE_REASON)]);
    Promotion(f, Pending("fast-forward install", s.head, tip, [tip], UPDATE_INTENT), s.head != tip, done)
  }

  /** `update`: review first; only a fast-forward is installed. `steady`: nothing changed during the build. */
  function UpdateScript(s: State, tip: Commit, related: bool, build: Build, steady: bool): Script {
    if !related then Script([Save(WithHead(s))], None)
    else if !Ancestor(s.head, tip) then Script(ReviewWrites(s, tip), None)
    else BuildScript(s, ReviewWrites(s, tip), tip, build, steady, UpdatePromotion(s, tip))
  }

  /** Each pick is a new commit on top of the previous one. */
  function CherryPicks(base: Commit, picks: seq<Commit>, ids: nat -> nat): Commit {
    if picks == [] then base
    else Commit(ids(|picks| - 1), [CherryPicks(base, picks[..|picks| - 1], ids)])
  }

  function Recorded(action: string, commits: seq<Commit>, reason: string): seq<Decision> {
    seq(|commits|, i requires 0 <= i < |commits| => Decision(action, commits[i], reason))
  }

  function AcceptPromotion(s: State, candidate: Commit, picks: seq<Commit>, reason: string): Promotion {
    var done := s.file.(head := Some(candidate), installed := Some(candidate), pending := None,
                        decisions := s.file.decisions + Recorded("adopted", picks, reason));
    Promotion(s.file, Pending("adopt", s.head, candidate, picks, reason), true, done)
  }

  /** `accept`: the picks are applied and built away from the durable branch. */
  function AcceptScript(s: State, picks: seq<Commit>, ids: nat -> nat, build: Build, reason: string,
                        steady: bool): Script
  {
    var candidate := CherryPicks(s.head, picks, ids);
    if picks == [] then Script([], None)
    else BuildScript(s, [], candidate, build, steady, AcceptPromotion(s, candidate, picks, reason))
  }

  const INSTALL_INTENT: string := "Install the current local source after validation."
  const INSTALL_REASON: string := "Installed the current local source after successful release validation."

  /** What `install` writes down about an operation that had stopped after moving the source. */
  function Recovered(s: State): seq<Decision> {
    if s.file.pending.Some? && s.file.pending.value.candidate == s.head then
      var p := s.file.pending.value;
      Recorded("recovered " + p.action, p.commits, p.reason)
    else []
  }

  function InstallPromotion(s: State): Promotion {
    var done := s.file.(head := Some(s.head), installed := Some(s.head), pending := None,
                        decisions := s.file.decisions + Recovered(s) + [Decision("installed", s.head, INSTALL_REASON)]);
    Promotion(s.file, Pending("install", s.head, s.head, [s.head], INSTALL_INTENT), false, done)
  }

  function InstallScript(s: State, build: Build, steady: bool): Script {
    BuildScript(s, [], s.head, build, steady, InstallPromotion(s))
  }

  const FORCE_REASON: string :=
    "Explicit operator /force-update: install exact prime main without inference; preserve local source when dirty or divergent."

  function ForcePromotion(s: State, tip: Commit, clean: bool): Promotion {
    var moves := clean && Ancestor(s.head, tip) && s.head != tip;
    var f := Trimmed(WithHead(s));
    var done := f.(head := Some(if moves then tip else s.head), installed := Some(tip), pending := None,
                   decisions := f.decisions + [Decision("force-installed main", tip, FORCE_REASON)]);
    Promotion(f, Pending("force-update main", s.head, tip, [tip], FORCE_REASON), moves, done)
  }

  /** `force_update`: the release is installed in any case, the source moves only when clean and fast-forward. */
  function ForceScript(s: State, tip: Commit, clean: bool, build: Build, steady: bool): Script {
    BuildScript(s, [Save(WithHead(s))], tip, build, steady, ForcePromotion(s, tip, clean))
  }

  datatype Operation =
    | Update(tip: Commit, related: bool, build: Build, steady: bool)
    | Accept(picks: seq<Commit>, ids: nat -> nat, build: Build, reason: string, steady: bool)
    | Install(build: Build, steady: bool)
    | ForceUpdate(tip: Commit, clean: bool, build: Build, steady: bool)

  function ScriptOf(s: State, op: Operation): Script {
    match op
    case Update(tip, related, build, steady) => UpdateScript(s, tip, related, build, steady)
    case Accept(picks, ids, build, reason, steady) => AcceptScript(s, picks, ids, build, reason, steady)
    case Install(build, steady) => InstallScript(s, build, steady)
    case ForceUpdate(tip, clean, build, steady) => ForceScript(s, tip, clean, build, steady)
  }

  // ---------------------------------------------------------------- agreement

  function ActiveCommit(s: State): Option<Commit> {
    if s.active.Some? then Some(s.active.value.commit) else None
  }

  predicate Agree(s: State) {
    s.file.head == Some(s.head) && s.file.installed == ActiveCommit(s) && s.file.pending.None?
  }

  function PendingCandidate(s: State): Option<Commit> {
    if s.file.pending.Some? then Some(s.file.pending.value.candidate) else None
  }

  /** Wherever HEAD or the active release differs from what is noted of it, it is the candidate. */
  predicate ExplainedBy(head: Commit, active: Option<Commit>, noted: Option<Commit>, installed: Option<Commit>,
                        candidate: Option<Commit>)
  {
    && (noted == Some(head) || candidate == Some(head))
    && (installed == active || (active.Some? && candidate == active))
  }

  predicate Explained(s: State) {
    ExplainedBy(s.head, ActiveCommit(s), s.file.head, s.file.installed, PendingCandidate(s))
  }

  // ---------------------------------------------------------------- histories only grow

  lemma {:induction false} AncestorTransitive(a: Commit, b: Commit, c: Commit)
    requires Ancestor(a, b) && Ancestor(b, c)
    ensures Ancestor(a, c)
    decreases c
  {
    if b != c {
      var i :| 0 <= i < |c.parents| && Ancestor(b, c.parents[i]);
      AncestorTransitive(a, b, c.parents[i]);
    }
  }

  lemma {:induction false} PicksDescend(base: Commit, picks: seq<Commit>, ids: nat -> nat)
    ensures Ancestor(base, CherryPicks(base, picks, ids))
  {
    if picks != [] {
      PicksDescend(base, picks[..|picks| - 1], ids);
      var c := CherryPicks(base, picks, ids);
      assert Ancestor(base, c.parents[0]);
    }
  }

  /** One write never moves HEAD off its history and never touches an existing release. */
  predicate Grows(s: State, t: State) {
    Ancestor(s.head, t.head) && forall c :: c in s.releases ==> c in t.releases && t.releases[c] == s.releases[c]
  }

  lemma ApplyGrows(s: State, w: Write)
    ensures Grows(s, Apply(s, w))
  {
  }

  lemma {:induction false} RunGrows(s: State, writes: seq<Write>)
    ensures Grows(s, Run(s, writes))
  {
    if writes != [] {
      var before := Run(s, writes[..|writes| - 1]);
      RunGrows(s, writes[..|writes| - 1]);
      ApplyGrows(before, writes[|writes| - 1]);
      AncestorTransitive(s.head, before.head, Run(s, writes).head);
    }
  }

  lemma {:induction false} RunAppend(s: State, a: seq<Write>, b: seq<Write>)
    ensures Run(s, a + b) == Run(Run(s, a), b)
  {
    hide Apply;
    if b == [] {
      assert a + b == a;
    } else {
      var n := |b| - 1;
      RunAppend(s, a, b[..n]);
      assert (a + b)[..|a + b| - 1] == a + b[..n];
    }
  }

  // ---------------------------------------------------------------- every script keeps to the same form

  /** A preparation write: a complete release, or a state file that changes neither installed nor pending. */
  predicate Quiet(s: State, w: Write) {
    match w
    case Save(file) =>
      && file.installed == s.file.installed && file.pending == s.file.pending
      && (file.head == s.file.head || file.head == Some(s.head))
    case Publish(c, r) => Complete(r, c)
    case _ => false
  }

  /** What a promotion relies on: the source can move, and the outcome is recorded exactly. */
  predicate PromotionOk(s: State, p: Promotion) {
    var c := p.pending.candidate;
    && (p.moves ==> Ancestor(s.head, c))
    && p.done.head == Some(if p.moves then c else s.head) && p.done.installed == Some(c) && p.done.pending.None?
  }

  /** The announcement changes nothing but the pending candidate, and may bring the recorded head up to date. */
  predicate AnnouncesOnly(s: State, p: Promotion) {
    p.file.installed == s.file.installed && (p.file.head == s.file.head || p.file.head == Some(s.head))
  }

  ghost predicate ScriptOk(s: State, script: Script) {
    && (forall w :: w in script.preparation ==> Quiet(s, w))
    && (script.promotion.Some? ==>
          && PromotionOk(s, script.promotion.value) && AnnouncesOnly(s, script.promotion.value)
          && script.promotion.value.pending.candidate in Run(s, script.preparation).releases)
  }

  lemma ReleaseIsReady(s: State, saves: seq<Write>, c: Commit, build: Build)
    requires HasRelease(s, c, build) && forall w :: w in saves ==> w.Save?
    ensures c in Run(s, saves + ReleaseWrites(s, c, build)).releases
  {
    RunGrows(s, saves);
    RunAppend(s, saves, ReleaseWrites(s, c, build));
    if c !in s.releases {
      var t := Run(s, saves);
      assert ReleaseWrites(s, c, build)[..0] == [];
    } else {
      assert ReleaseWrites(s, c, build) == [];
    }
  }

  /** The common end of every operation: quiet saves, a release, and a promotion that relies on it. */
  lemma BuildScriptIsOk(s: State, saves: seq<Write>, c: Commit, build: Build, steady: bool, p: Promotion)
    requires forall w :: w in saves ==> w.Save? && Quiet(s, w)
    requires PromotionOk(s, p) && AnnouncesOnly(s, p) && p.pending.candidate == c
    ensures ScriptOk(s, BuildScript(s, saves, c, build, steady, p))
  {
    hide Run, Ancestor, PromotionOk, AnnouncesOnly;
    if HasRelease(s, c, build) {
      ReleaseIsReady(s, saves, c, build);
    }
  }

  lemma SavesAreQuiet(s: State, tip: Commit)
    ensures forall w :: w in [Save(WithHead(s))] ==> w.Save? && Quiet(s, w)
    ensures forall w :: w in ReviewWrites(s, tip) ==> w.Save? && Quiet(s, w)
  {
  }

  lemma PromotionsAreOk(s: State, tip: Commit, clean: bool, picks: seq<Commit>, reason: string)
    ensures Ancestor(s.head, tip) ==>
              && PromotionOk(s, UpdatePromotion(s, tip)) && AnnouncesOnly(s, UpdatePromotion(s, tip))
              && PromotionOk(s, AcceptPromotion(s, tip, picks, reason))
              && AnnouncesOnly(s, AcceptPromotion(s, tip, picks, reason))
    ensures PromotionOk(s, InstallPromotion(s)) && AnnouncesOnly(s, InstallPromotion(s))
    ensures PromotionOk(s, ForcePromotion(s, tip, clean)) && AnnouncesOnly(s, ForcePromotion(s, tip, clean))
  {
    hide Ancestor, Recorded, Recovered;
  }

  lemma UpdateScriptIsOk(s: State, tip: Commit, related: bool, build: Build, steady: bool)
    ensures ScriptOk(s, UpdateScript(s, tip, related, build, steady))
  {
    SavesAreQuiet(s, tip);
    PromotionsAreOk(s, tip, true, [], "");
    hide Run, Ancestor, BuildScript, PromotionOk, AnnouncesOnly, ReviewWrites, Quiet;
    if Ancestor(s.head, tip) {
      BuildScriptIsOk(s, ReviewWrites(s, tip), tip, build, steady, UpdatePromotion(s, tip));
    }
  }

  lemma AcceptScriptIsOk(s: State, picks: seq<Commit>, ids: nat -> nat, build: Build, reason: string, steady: bool)
    ensures ScriptOk(s, AcceptScript(s, picks, ids, build, reason, steady))
  {
    var candidate := CherryPicks(s.head, picks, ids);
    PicksDescend(s.head, picks, ids);
    PromotionsAreOk(s, candidate, true, picks, reason);
    hide Run, Ancestor, CherryPicks, BuildScript, PromotionOk, AnnouncesOnly;
    BuildScriptIsOk(s, [], candidate, build, steady, AcceptPromotion(s, candidate, picks, reason));
  }

  lemma InstallScriptIsOk(s: State, build: Build, steady: bool)
    ensures ScriptOk(s, InstallScript(s, build, steady))
  {
    PromotionsAreOk(s, s.head, true, [], "");
    hide Run, Ancestor, BuildScript, PromotionOk, AnnouncesOnly;
    BuildScriptIsOk(s, [], s.head, build, steady, InstallPromotion(s));
  }

  lemma ForceScriptIsOk(s: State, tip: Commit, clean: bool, build: Build, steady: bool)
    ensures ScriptOk(s, ForceScript(s, tip, clean, build, steady))
  {
    SavesAreQuiet(s, tip);
    PromotionsAreOk(s, tip, clean, [], "");
    hide Run, Ancestor, BuildScript, PromotionOk, AnnouncesOnly, Quiet;
    BuildScriptIsOk(s, [Save(WithHead(s))], tip, build, steady, ForcePromotion(s, tip, clean));
  }

  lemma EveryScriptIsOk(s: State, op: Operation)
    ensures ScriptOk(s, ScriptOf(s, op))
  {
    hide ScriptOk, UpdateScript, AcceptScript, InstallScript, ForceScript;
    match op
    case Update(tip, related, build, steady) => UpdateScriptIsOk(s, tip, related, build, steady);
    case Accept(picks, ids, build, reason, steady) => AcceptScriptIsOk(s, picks, ids, build, reason, steady);
    case Install(build, steady) => InstallScriptIsOk(s, build, steady);
    case ForceUpdate(tip, clean, build, steady) => ForceScriptIsOk(s, tip, clean, build, steady);
  }

  // ---------------------------------------------------------------- stopping anywhere

  /** Preparation changes neither HEAD, nor the active release, nor what the state file says of them. */
  lemma {:induction false} PreparationIsQuiet(s: State, writes: seq<Write>)
    requires Valid(s) && forall w :: w in writes ==> Quiet(s, w)
    ensures var t := Run(s, writes);
      && Valid(t) && t.head == s.head && t.active == s.active
      && t.file.installed == s.file.installed && t.file.pending == s.file.pending
      && (t.file.head == s.file.head || t.file.head == Some(s.head))
  {
    if writes != [] {
      PreparationIsQuiet(s, writes[..|writes| - 1]);
      assert Quiet(s, writes[|writes| - 1]);
    }
  }

  lemma PromotionStops(t: State, p: Promotion, k: nat)
    requires Valid(t) && PromotionOk(t, p) && p.pending.candidate in t.releases && k <= |PromotionWrites(p)|
    ensures Valid(Run(t, PromotionWrites(p)[..k]))
    ensures Agree(t) && AnnouncesOnly(t, p) ==> Explained(Run(t, PromotionWrites(p)[..k]))
    ensures k == |PromotionWrites(p)| ==> Agree(Run(t, PromotionWrites(p)[..k]))
  {
    var all := PromotionWrites(p);
    if k > 0 {
      PromotionPrefix(t, p, k);
    } else {
      assert all[..0] == [];
    }
  }

  /** The states a promotion goes through, one write at a time. */
  lemma PromotionPrefix(t: State, p: Promotion, k: nat)
    requires PromotionOk(t, p) && 0 < k <= |PromotionWrites(p)|
    ensures var c, announced := p.pending.candidate, t.(file := Trimmed(Intent(p.file, p.pending)));
      var moved := if p.moves then announced.(head := c) else announced;
      var pointed := moved.(active := Some(Activation(c)));
      Run(t, PromotionWrites(p)[..k]) ==
        if k == 1 then announced
        else if k == 2 then (if p.moves then moved else pointed)
        else if k == 3 then (if p.moves then pointed else pointed.(file := Trimmed(p.done)))
        else pointed.(file := Trimmed(p.done))
  {
    hide Ancestor;
    var all := PromotionWrites(p);
    assert all[..k][..k - 1] == all[..k - 1];
    if k > 1 {
      PromotionPrefix(t, p, k - 1);
    } else {
      assert all[..0] == [];
    }
  }

  /** The state in which an operation stops after `k` of its durable writes. */
  function StoppedAfter(s: State, op: Operation, k: nat): State
    requires k <= |Writes(ScriptOf(s, op))|
  {
    Run(s, Writes(ScriptOf(s, op))[..k])
  }

  /**
   Wherever an operation stops: HEAD has only moved to a descendant, no release has changed, and the active
   record names a complete release. Starting where the records agree, HEAD or the active release can only
   differ from the state file by being the pending candidate.
   */
  lemma StopAnywhere(s: State, op: Operation, k: nat)
    requires Valid(s) && k <= |Writes(ScriptOf(s, op))|
    ensures Valid(StoppedAfter(s, op, k)) && Grows(s, StoppedAfter(s, op, k))
    ensures Agree(s) ==> Explained(StoppedAfter(s, op, k))
    ensures ScriptOf(s, op).promotion.Some? && k == |Writes(ScriptOf(s, op))| ==> Agree(StoppedAfter(s, op, k))
  {
    hide Valid, Run, Quiet, ScriptOf, PromotionWrites, Grows;
    EveryScriptIsOk(s, op);
    var script := ScriptOf(s, op);
    var all, prep := Writes(script), script.preparation;
    RunGrows(s, all[..k]);
    if k <= |prep| {
      assert all[..k] == prep[..k];
      PreparationIsQuiet(s, prep[..k]);
    }
    if script.promotion.Some? && k >= |prep| {
      var p := script.promotion.value;
      var tail := PromotionWrites(p);
      var t := Run(s, prep);
      PreparationIsQuiet(s, prep);
      assert all[..k] == prep + tail[..k - |prep|];
      RunAppend(s, prep, tail[..k - |prep|]);
      PromotionStillOk(s, t, p);
      PromotionStops(t, p, k - |prep|);
    }
  }

  lemma PromotionStillOk(s: State, t: State, p: Promotion)
    requires PromotionOk(s, p) && AnnouncesOnly(s, p)
    requires t.head == s.head && t.file.installed == s.file.installed
    requires t.file.head == s.file.head || t.file.head == Some(s.head)
    ensures PromotionOk(t, p) && (Agree(s) ==> AnnouncesOnly(t, p))
  {
  }

  // ---------------------------------------------------------------- exactly which stops can be explained

  /** `update` and `force_update` begin by noting the head that they find; the other two only do so at the end. */
  predicate NotesHead(op: Operation) { op.Update? || op.ForceUpdate? }

  lemma ScriptNotes(s: State, op: Operation)
    ensures NotesHead(op) ==>
              && ScriptOf(s, op).preparation != [] && ScriptOf(s, op).preparation[0].Save?
              && forall w :: w in ScriptOf(s, op).preparation && w.Save? ==> w.file.head == Some(s.head)
    ensures !NotesHead(op) ==> forall w :: w in ScriptOf(s, op).preparation ==> !w.Save?
  {
    hide Ancestor, CherryPicks, UpdatePromotion, AcceptPromotion, InstallPromotion, ForcePromotion;
  }

  lemma AnnouncementNotes(s: State, op: Operation)
    requires ScriptOf(s, op).promotion.Some?
    ensures ScriptOf(s, op).promotion.value.file.head == if NotesHead(op) then Some(s.head) else s.file.head
  {
    hide Ancestor, CherryPicks, Recorded, Recovered, ReleaseWrites, ReviewWrites, HasRelease;
  }

  /** The source moves to the candidate, or the candidate is installed beside a source that is up to date. */
  lemma CandidateOrNoted(s: State, op: Operation)
    requires ScriptOf(s, op).promotion.Some?
    ensures var p := ScriptOf(s, op).promotion.value;
      p.moves || p.pending.candidate == s.head || p.file.head == Some(s.head)
  {
    hide Ancestor, CherryPicks, Recorded, Recovered, ReleaseWrites, ReviewWrites, HasRelease;
  }

  /** What the state file says of HEAD after `k` writes of the preparation, and while the candidate is pending. */
  function NotedHead(s: State, op: Operation, k: nat): Option<Commit> {
    if NotesHead(op) && k > 0 then Some(s.head) else s.file.head
  }

  lemma {:induction false} PreparationNotes(s: State, op: Operation, k: nat)
    requires k <= |ScriptOf(s, op).preparation| && forall w :: w in ScriptOf(s, op).preparation ==> Quiet(s, w)
    ensures Run(s, ScriptOf(s, op).preparation[..k]).file.head == NotedHead(s, op, k)
    decreases k
  {
    hide ScriptOf, Complete;
    var prep := ScriptOf(s, op).preparation;
    ScriptNotes(s, op);
    if k > 0 {
      PreparationNotes(s, op, k - 1);
      assert prep[..k][..k - 1] == prep[..k - 1];
      assert Quiet(s, prep[k - 1]);
    }
  }

  /**
   Whether the records will explain a stop after `k` writes, told from the state before the operation: until the
   announcement by what was pending before, from then on by the new candidate, and always once it is active.
   */
  predicate StopIsExplained(s: State, op: Operation, k: nat) {
    var script := ScriptOf(s, op);
    var n, noted := |script.preparation|, NotedHead(s, op, k);
    if script.promotion.None? || k <= n then
      ExplainedBy(s.head, ActiveCommit(s), noted, s.file.installed, PendingCandidate(s))
    else
      var c, moves := script.promotion.value.pending.candidate, script.promotion.value.moves;
      || k >= n + (if moves then 3 else 2)
      || ExplainedBy(if k == n + 2 then c else s.head, ActiveCommit(s), noted, s.file.installed, Some(c))
  }

  /** Exactly which stops leave records that explain the release: from any state, agreed or not. */
  lemma StopExplainedExactly(s: State, op: Operation, k: nat)
    requires Valid(s) && k <= |Writes(ScriptOf(s, op))|
    ensures Explained(StoppedAfter(s, op, k)) <==> StopIsExplained(s, op, k)
  {
    hide ScriptOf, Valid, Run, Quiet, PromotionWrites;
    EveryScriptIsOk(s, op);
    var script := ScriptOf(s, op);
    var prep := script.preparation;
    if script.promotion.None? || k <= |prep| {
      assert Writes(script)[..k] == prep[..k];
      PreparationIsQuiet(s, prep[..k]);
      PreparationNotes(s, op, k);
    } else {
      var tail, t := PromotionWrites(script.promotion.value), Run(s, prep);
      PreparationIsQuiet(s, prep);
      assert Writes(script)[..k] == prep + tail[..k - |prep|];
      RunAppend(s, prep, tail[..k - |prep|]);
      PromotionStillOk(s, t, script.promotion.value);
      PromotionExplained(s, op, t, k - |prep|);
    }
  }

  lemma PromotionExplained(s: State, op: Operation, t: State, j: nat)
    requires ScriptOf(s, op).promotion.Some? && PromotionOk(t, ScriptOf(s, op).promotion.value)
    requires AnnouncesOnly(s, ScriptOf(s, op).promotion.value) && t.head == s.head && t.active == s.active
    requires 0 < j <= |PromotionWrites(ScriptOf(s, op).promotion.value)|
    ensures Explained(Run(t, PromotionWrites(ScriptOf(s, op).promotion.value)[..j]))
            <==> StopIsExplained(s, op, |ScriptOf(s, op).preparation| + j)
  {
    hide ScriptOf, Run, Ancestor;
    AnnouncementNotes(s, op);
    CandidateOrNoted(s, op);
    PromotionPrefix(t, ScriptOf(s, op).promotion.value, j);
  }

  // ---------------------------------------------------------------- what each operation achieves when it finishes

  function Finished(s: State, op: Operation): State { Run(s, Writes(ScriptOf(s, op))) }

  /** The newest decisions of a history that goes on. */
  predicate Notes(before: seq<Decision>, more: seq<Decision>, after: seq<Decision>) {
    var all := before + more;
    after == if |all| > MAX_DECISIONS then all[|all| - MAX_DECISIONS..] else all
  }

  /** The release of a commit is active, and every record says so. */
  predicate Installs(s: State, head: Commit, installed: Commit) {
    && s.head == head && s.active == Some(ActiveRelease(installed, BINARY, SIDECAR))
    && installed in s.releases
    && s.file.head == Some(head) && s.file.installed == Some(installed) && s.file.pending.None?
  }

  /** Nothing is promoted; the state file may only note the head that was found and the tip that was reviewed. */
  predicate LeavesAlone(s: State, t: State, noted: Option<Commit>, reviewed: Option<Commit>) {
    && t.head == s.head && t.active == s.active
    && t.file.installed == s.file.installed && t.file.pending == s.file.pending
    && t.file.head == noted && t.file.reviewed == reviewed
    && Notes(s.file.decisions, [], t.file.decisions)
  }

  lemma {:induction false} NotesTwice(before: seq<Decision>, middle: seq<Decision>, more: seq<Decision>,
                                      after: seq<Decision>)
    requires Notes(before, [], middle) && Notes(middle, more, after)
    ensures Notes(before, more, after)
  {
    var n := |before|;
    if n > MAX_DECISIONS {
      assert before + [] == before;
      assert middle == before[n - MAX_DECISIONS..];
      assert middle + more == (before + more)[n - MAX_DECISIONS..];
    } else {
      assert before + [] == before;
    }
  }

  lemma TrimmedIsNoted(f: StateFile)
    ensures Notes(f.decisions, [], Trimmed(f).decisions)
    ensures Trimmed(f) == f.(decisions := Trimmed(f).decisions)
  {
    assert f.decisions + [] == f.decisions;
  }

  lemma SameNotes(before: seq<Decision>, more: seq<Decision>, after: seq<Decision>)
    requires Notes(before + more, [], after)
    ensures Notes(before, more, after)
  {
    assert (before + more) + [] == before + more;
  }

  lemma SavedOnce(s: State, f: StateFile)
    ensures Run(s, [Save(f)]) == s.(file := Trimmed(f))
  {
    assert [Save(f)][..0] == [];
    assert Run(s, []) == s;
  }

  lemma SavedTwice(s: State, f: StateFile, g: StateFile)
    ensures Run(s, [Save(f), Save(g)]) == s.(file := Trimmed(g))
  {
    SavedOnce(s, f);
    assert [Save(f), Save(g)][..1] == [Save(f)];
  }

  /** Building a release changes nothing else. */
  lemma ReleaseOnly(s: State, saves: seq<Write>, c: Commit, build: Build)
    ensures var t := Run(s, saves + ReleaseWrites(s, c, build)); t == Run(s, saves).(releases := t.releases)
  {
    var release := ReleaseWrites(s, c, build);
    RunAppend(s, saves, release);
    if release != [] {
      assert release[..0] == [] && |release| == 1;
      assert Run(Run(s, saves), []) == Run(s, saves);
    }
  }

  lemma FinishedPromotion(s: State, op: Operation)
    requires Valid(s) && ScriptOf(s, op).promotion.Some?
    ensures var p, t := ScriptOf(s, op).promotion.value, Finished(s, op);
      && t.head == (if p.moves then p.pending.candidate else s.head)
      && t.active == Some(Activation(p.pending.candidate)) && p.pending.candidate in t.releases
      && t.file == Trimmed(p.done)
  {
    hide ScriptOf, Valid, Run, Ancestor, Trimmed;
    var script := ScriptOf(s, op);
    var prep, p := script.preparation, script.promotion.value;
    EveryScriptIsOk(s, op);
    PreparationIsQuiet(s, prep);
    RunAppend(s, prep, PromotionWrites(p));
    PromotionStillOk(s, Run(s, prep), p);
    PromotionPrefix(Run(s, prep), p, |PromotionWrites(p)|);
    assert PromotionWrites(p)[..|PromotionWrites(p)|] == PromotionWrites(p);
    assert Writes(script) == prep + PromotionWrites(p);
  }

  // ---------------------------------------------------------------- whole runs of stopped operations

  predicate CanRelease(s: State, c: Commit, build: Build) { c in s.releases || build.Built? }

  /** Nothing but the saves of the preparation is left of an operation that does not promote. */
  lemma FinishedQuietly(s: State, op: Operation, saves: seq<Write>, c: Commit, build: Build)
    requires ScriptOf(s, op).promotion.None?
    requires ScriptOf(s, op).preparation == saves || ScriptOf(s, op).preparation == saves + ReleaseWrites(s, c, build)
    ensures var t := Finished(s, op); t == Run(s, saves).(releases := t.releases)
  {
    hide ScriptOf, Run;
    ReleaseOnly(s, saves, c, build);
    assert Writes(ScriptOf(s, op)) == ScriptOf(s, op).preparation;
  }

  /** What a promotion writes down at the end. */
  lemma DoneNotes(f: StateFile, head: Commit, installed: Commit, more: seq<Decision>)
    ensures var done := Trimmed(f.(head := Some(head), installed := Some(installed), pending := None,
                                   decisions := f.decisions + more));
      && done.head == Some(head) && done.installed == Some(installed) && done.pending.None?
      && done.reviewed == f.reviewed && Notes(f.decisions, more, done.decisions)
  {
    var done := f.(head := Some(head), installed := Some(installed), pending := None, decisions := f.decisions + more);
    TrimmedIsNoted(done);
    hide Notes, Trimmed;
    SameNotes(f.decisions, more, Trimmed(done).decisions);
  }

  /** The same on top of a file that already lost old decisions. */
  lemma DoneIsNoted(f: StateFile, before: seq<Decision>, head: Commit, installed: Commit, more: seq<Decision>)
    requires Notes(before, [], f.decisions)
    ensures var done := Trimmed(f.(head := Some(head), installed := Some(installed), pending := None,
                                   decisions := f.decisions + more));
      && done.head == Some(head) && done.installed == Some(installed) && done.pending.None?
      && done.reviewed == f.reviewed && Notes(before, more, done.decisions)
  {
    hide Notes, Trimmed;
    DoneNotes(f, head, installed, more);
    NotesTwice(before, f.decisions, more,
               Trimmed(f.(head := Some(head), installed := Some(installed), pending := None,
                          decisions := f.decisions + more)).decisions);
  }

  /** The files that `update` and `force_update` save before they build. */
  lemma SavedFiles(s: State, tip: Commit)
    ensures var f := Trimmed(WithHead(s)); var g := Trimmed(f.(reviewed := Some(tip)));
      && f == s.file.(head := Some(s.head), decisions := f.decisions) && Notes(s.file.decisions, [], f.decisions)
      && g == f.(reviewed := Some(tip), decisions := g.decisions) && Notes(s.file.decisions, [], g.decisions)
      && Run(s, [Save(WithHead(s))]) == s.(file := f) && Run(s, ReviewWrites(s, tip)) == s.(file := g)
  {
    var f := Trimmed(WithHead(s));
    TrimmedIsNoted(WithHead(s));
    TrimmedIsNoted(f.(reviewed := Some(tip)));
    hide Notes, Run, Trimmed;
    NotesTwice(s.file.decisions, f.decisions, [], Trimmed(f.(reviewed := Some(tip))).decisions);
    SavedOnce(s, WithHead(s));
    SavedTwice(s, WithHead(s), f.(reviewed := Some(tip)));
  }

  lemma UpdatePlan(s: State, tip: Commit, related: bool, build: Build, steady: bool)
    ensures var script := ScriptOf(s, Update(tip, related, build, steady));
      var saves := if related then ReviewWrites(s, tip) else [Save(WithHead(s))];
      && script.promotion == (if related && Ancestor(s.head, tip) && CanRelease(s, tip, build) && steady
                              then Some(UpdatePromotion(s, tip)) else None)
      && (script.preparation == saves || script.preparation == saves + ReleaseWrites(s, tip, build))
  {
    hide Ancestor, UpdatePromotion, ReviewWrites, WithHead, ReleaseWrites;
  }

  /**
   `update`: a related tip ahead of the source is installed and the source moves to it, if there is a release and
   nothing changed meanwhile. Otherwise nothing is promoted, and a related tip is noted as reviewed.
   */
  lemma UpdateAchieves(s: State, tip: Commit, related: bool, build: Build, steady: bool)
    requires Valid(s)
    ensures var t := Finished(s, Update(tip, related, build, steady));
      if related && Ancestor(s.head, tip) && CanRelease(s, tip, build) && steady then
        && Installs(t, tip, tip) && t.file.reviewed == Some(tip)
        && Notes(s.file.decisions, [Decision("fast-forward installed", tip, UPDATE_REASON)], t.file.decisions)
      else LeavesAlone(s, t, Some(s.head), if related then Some(tip) else s.file.reviewed)
  {
    var op := Update(tip, related, build, steady);
    hide Ancestor, Trimmed, Notes, Run, Finished, ScriptOf, CanRelease, WithHead, ReviewWrites;
    SavedFiles(s, tip);
    UpdatePlan(s, tip, related, build, steady);
    if ScriptOf(s, op).promotion.Some? {
      FinishedPromotion(s, op);
      DoneIsNoted(Trimmed(Trimmed(WithHead(s)).(reviewed := Some(tip))), s.file.decisions, tip, tip,
                  [Decision("fast-forward installed", tip, UPDATE_REASON)]);
    } else {
      FinishedQuietly(s, op, if related then ReviewWrites(s, tip) else [Save(WithHead(s))], tip, build);
    }
  }

  lemma ForcePlan(s: State, tip: Commit, clean: bool, build: Build, steady: bool)
    ensures var script := ScriptOf(s, ForceUpdate(tip, clean, build, steady));
      && script.promotion == (if CanRelease(s, tip, build) && steady then Some(ForcePromotion(s, tip, clean)) else None)
      && (script.preparation == [Save(WithHead(s))]
          || script.preparation == [Save(WithHead(s))] + ReleaseWrites(s, tip, build))
  {
    hide Ancestor, ForcePromotion, WithHead, ReleaseWrites;
  }

  /**
   `force_update`: the tip is installed whenever there is a release of it and nothing changed meanwhile. The source
   moves to it only when it is clean and the tip is ahead; otherwise it stays where it is, beside the other release.
   */
  lemma ForceUpdateAchieves(s: State, tip: Commit, clean: bool, build: Build, steady: bool)
    requires Valid(s)
    ensures var t := Finished(s, ForceUpdate(tip, clean, build, steady));
      if CanRelease(s, tip, build) && steady then
        && Installs(t, if clean && Ancestor(s.head, tip) then tip else s.head, tip)
        && t.file.reviewed == s.file.reviewed
        && Notes(s.file.decisions, [Decision("force-installed main", tip, FORCE_REASON)], t.file.decisions)
      else LeavesAlone(s, t, Some(s.head), s.file.reviewed)
  {
    var op := ForceUpdate(tip, clean, build, steady);
    hide Ancestor, Trimmed, Notes, Run, Finished, ScriptOf, CanRelease, WithHead;
    SavedFiles(s, tip);
    ForcePlan(s, tip, clean, build, steady);
    if ScriptOf(s, op).promotion.Some? {
      FinishedPromotion(s, op);
      var moves := clean && Ancestor(s.head, tip) && s.head != tip;
      DoneIsNoted(Trimmed(WithHead(s)), s.file.decisions, if moves then tip else s.head, tip,
                  [Decision("force-installed main", tip, FORCE_REASON)]);
    } else {
      FinishedQuietly(s, op, [Save(WithHead(s))], tip, build);
    }
  }

  lemma AcceptPlan(s: State, picks: seq<Commit>, ids: nat -> nat, build: Build, reason: string, steady: bool)
    ensures var script := ScriptOf(s, Accept(picks, ids, build, reason, steady));
      var c := CherryPicks(s.head, picks, ids);
      && script.promotion == (if picks != [] && CanRelease(s, c, build) && steady
                              then Some(AcceptPromotion(s, c, picks, reason)) else None)
      && (script.preparation == [] || script.preparation == [] + ReleaseWrites(s, c, build))
  {
    hide Ancestor, AcceptPromotion, CherryPicks, ReleaseWrites;
  }

  /** One decision for each commit, in order. */
  ghost predicate DecidesEach(ds: seq<Decision>, action: string, commits: seq<Commit>, reason: string) {
    |ds| == |commits| && forall i :: 0 <= i < |ds| ==> ds[i] == Decision(action, commits[i], reason)
  }

  /** `count` first parents back. */
  function Back(c: Commit, count: nat): Option<Commit> {
    if count == 0 then Some(c)
    else if c.parents == [] then None
    else Back(c.parents[0], count - 1)
  }

  lemma {:induction false} PicksAreStacked(base: Commit, picks: seq<Commit>, ids: nat -> nat)
    ensures Back(CherryPicks(base, picks, ids), |picks|) == Some(base)
  {
    if picks != [] {
      PicksAreStacked(base, picks[..|picks| - 1], ids);
    }
  }

  /**
   `accept`: the source moves to the last of the picks, one new commit each on top of the old head, and it is
   installed; every pick is noted with the reason. Otherwise nothing changes but the release directories.
   */
  lemma AcceptAchieves(s: State, picks: seq<Commit>, ids: nat -> nat, build: Build, reason: string, steady: bool)
    returns (adopted: seq<Decision>)
    requires Valid(s)
    ensures DecidesEach(adopted, "adopted", picks, reason)
    ensures var t, c := Finished(s, Accept(picks, ids, build, reason, steady)), CherryPicks(s.head, picks, ids);
      && Back(c, |picks|) == Some(s.head)
      && if picks != [] && CanRelease(s, c, build) && steady then
           && Installs(t, c, c) && t.file.reviewed == s.file.reviewed
           && Notes(s.file.decisions, adopted, t.file.decisions)
         else t == s.(releases := t.releases)
  {
    var op, c := Accept(picks, ids, build, reason, steady), CherryPicks(s.head, picks, ids);
    PicksAreStacked(s.head, picks, ids);
    adopted := Recorded("adopted", picks, reason);
    assert DecidesEach(adopted, "adopted", picks, reason);
    hide Ancestor, Trimmed, Notes, Run, Finished, ScriptOf, CanRelease, CherryPicks, Recorded, Back;
    AcceptPlan(s, picks, ids, build, reason, steady);
    if ScriptOf(s, op).promotion.Some? {
      FinishedPromotion(s, op);
      DoneNotes(s.file, c, c, adopted);
    } else {
      FinishedQuietly(s, op, [], c, build);
      assert Run(s, []) == s by { RunNothing(s); }
    }
  }

  lemma InstallPlan(s: State, build: Build, steady: bool)
    ensures var script := ScriptOf(s, Operation.Install(build, steady));
      && script.promotion == (if CanRelease(s, s.head, build) && steady then Some(InstallPromotion(s)) else None)
      && (script.preparation == [] || script.preparation == [] + ReleaseWrites(s, s.head, build))
  {
    hide Ancestor, InstallPromotion, ReleaseWrites;
  }

  /** What was pending when its candidate was reached: one decision for each of its commits. */
  ghost predicate IsRecovery(s: State, ds: seq<Decision>) {
    if s.file.pending.Some? && s.file.pending.value.candidate == s.head then
      var p := s.file.pending.value; DecidesEach(ds, "recovered " + p.action, p.commits, p.reason)
    else ds == []
  }

  lemma RecoveredIsRecovery(s: State)
    ensures IsRecovery(s, Recovered(s))
  {
  }

  /**
   `install`: the present source is installed without moving, and when an operation had stopped on the way to it, its
   commits are noted as recovered. Otherwise nothing changes but the release directories.
   */
  lemma InstallAchieves(s: State, build: Build, steady: bool) returns (recovered: seq<Decision>)
    requires Valid(s)
    ensures IsRecovery(s, recovered)
    ensures var t := Finished(s, Operation.Install(build, steady));
      if CanRelease(s, s.head, build) && steady then
        && Installs(t, s.head, s.head) && t.file.reviewed == s.file.reviewed
        && Notes(s.file.decisions, recovered + [Decision("installed", s.head, INSTALL_REASON)], t.file.decisions)
      else t == s.(releases := t.releases)
  {
    recovered := Recovered(s);
    RecoveredIsRecovery(s);
    var op := Operation.Install(build, steady);
    hide Ancestor, Trimmed, Notes, Run, Finished, ScriptOf, CanRelease, Recovered;
    InstallPlan(s, build, steady);
    if ScriptOf(s, op).promotion.Some? {
      FinishedPromotion(s, op);
      var last := [Decision("installed", s.head, INSTALL_REASON)];
      assert s.file.decisions + recovered + last == s.file.decisions + (recovered + last);
      DoneNotes(s.file, s.head, s.head, recovered + last);
    } else {
      FinishedQuietly(s, op, [], s.head, build);
      assert Run(s, []) == s by { RunNothing(s); }
    }
  }

  lemma RunNothing(s: State)
    ensures Run(s, []) == s
  {
  }

  /** One operation of a run, and after how many of its durable writes it stops (`None`: it finishes). */
  datatype Attempt = Attempt(operation: Operation, stop: Option<nat>)

  function After(s: State, a: Attempt): State {
    var n := |Writes(ScriptOf(s, a.operation))|;
    StoppedAfter(s, a.operation, if a.stop.Some? && a.stop.value < n then a.stop.value else n)
  }

  function RunAll(s: State, attempts: seq<Attempt>): State {
    if attempts == [] then s else After(RunAll(s, attempts[..|attempts| - 1]), attempts[|attempts| - 1])
  }

  /** Over any run, however often it stops: HEAD only descends, and what is active is complete. */
  lemma {:induction false} RunStaysValid(s: State, attempts: seq<Attempt>)
    requires Valid(s)
    ensures Valid(RunAll(s, attempts)) && Grows(s, RunAll(s, attempts))
  {
    if attempts != [] {
      hide StoppedAfter, ScriptOf, Agree, Explained, Valid;
      var n := |attempts| - 1;
      RunStaysValid(s, attempts[..n]);
      var before := RunAll(s, attempts[..n]);
      var a := attempts[n];
      var all := |Writes(ScriptOf(before, a.operation))|;
      StopAnywhere(before, a.operation, if a.stop.Some? && a.stop.value < all then a.stop.value else all);
      AncestorTransitive(s.head, before.head, RunAll(s, attempts).head);
    }
  }

  /** Whatever stopped before, an operation that promotes and finishes makes all records agree again. */
  lemma FinishingRestoresAgreement(s: State, attempts: seq<Attempt>, op: Operation)
    requires Valid(s) && ScriptOf(RunAll(s, attempts), op).promotion.Some?
    ensures Agree(After(RunAll(s, attempts), Attempt(op, None)))
  {
    hide StoppedAfter, ScriptOf, Agree, Explained, Valid;
    RunStaysValid(s, attempts);
    var t := RunAll(s, attempts);
    StopAnywhere(t, op, |Writes(ScriptOf(t, op))|);
  }

  /**
   Agreement at the start is needed: when two operations in a row stop, the active release can differ from the
   state file without being the pending candidate, because the second announcement replaces the first.
   */
  lemma SecondStopLosesTheCandidate()
    ensures exists s: State, attempts: seq<Attempt> ::
              Valid(s) && Agree(s) && |attempts| == 2 && !Explained(RunAll(s, attempts))
  {
    var zero := Commit(0, []);
    var one, two := Commit(1, [zero]), Commit(2, [zero]);
    assert Ancestor(zero, one) by {
      assert Ancestor(zero, one.parents[0]);
    }
    var built := Built("b", "s");
    var s := State(zero, map[one := Assemble(one, built), two := Assemble(two, built)], None,
                   StateFile(Some(zero), None, None, None, []));
    assert Valid(s) && Agree(s);
    TwoStops(s, one, two);
  }

  lemma TwoStops(s: State, one: Commit, two: Commit)
    requires Valid(s) && one in s.releases && two in s.releases && one != s.head && one != two
    requires Ancestor(s.head, one) && s.file.installed == None
    ensures exists attempts: seq<Attempt> :: |attempts| == 2 && !Explained(RunAll(s, attempts))
  {
    hide After, RunAll, Ancestor, Valid, Explained, Grows, ActiveCommit;
    var a := UpdateStopsLate(s, one, two);
    var b := ForceStopsEarly(After(s, a), two);
    NobodyExplains(After(s, a), After(After(s, a), b), one, two);
    RunOfTwo(s, a, b);
    assert !Explained(RunAll(s, [a, b]));
  }

  lemma UpdateStopsLate(s: State, one: Commit, two: Commit) returns (a: Attempt)
    requires Valid(s) && one in s.releases && two in s.releases && one != s.head && Ancestor(s.head, one)
    ensures var t := After(s, a);
      Valid(t) && two in t.releases && ActiveCommit(t) == Some(one) && t.file.installed == s.file.installed
  {
    var op := Update(one, true, Failed, true);
    UpdatePromotes(s, one);
    hide ScriptOf, StoppedAfter, Writes, After, Ancestor, Valid, Grows, ActiveCommit;
    var t := StoppedBeforeRecording(s, op, one);
    StillReleased(s, t, two);
    var k := |ScriptOf(s, op).preparation| + 3;
    AfterStop(s, op, k);
    a := Attempt(op, Some(k));
  }

  lemma ForceStopsEarly(s: State, two: Commit) returns (a: Attempt)
    requires Valid(s) && two in s.releases
    ensures var t := After(s, a);
      && t.active == s.active && t.file.installed == s.file.installed
      && t.file.pending.Some? && t.file.pending.value.candidate == two
  {
    var op := ForceUpdate(two, true, Failed, true);
    ForcePromotes(s, two);
    hide ScriptOf, StoppedAfter, Writes, After, Valid;
    var t := StoppedAfterAnnouncing(s, op, two);
    var k := |ScriptOf(s, op).preparation| + 1;
    AfterStop(s, op, k);
    a := Attempt(op, Some(k));
  }

  lemma StillReleased(s: State, t: State, c: Commit)
    requires Grows(s, t) && c in s.releases
    ensures c in t.releases
  {
  }

  lemma NobodyExplains(t: State, u: State, one: Commit, two: Commit)
    requires ActiveCommit(t) == Some(one) && u.active == t.active && u.file.installed == None && one != two
    requires u.file.pending.Some? && u.file.pending.value.candidate == two
    ensures !Explained(u)
  {
  }

  lemma AfterStop(s: State, op: Operation, k: nat)
    requires k <= |Writes(ScriptOf(s, op))|
    ensures After(s, Attempt(op, Some(k))) == StoppedAfter(s, op, k)
  {
  }

  lemma UpdatePromotes(s: State, c: Commit)
    requires c in s.releases && c != s.head && Ancestor(s.head, c)
    ensures var script := ScriptOf(s, Update(c, true, Failed, true));
      script.promotion.Some? && script.promotion.value.moves && script.promotion.value.pending.candidate == c
  {
    hide Ancestor;
  }

  lemma ForcePromotes(s: State, c: Commit)
    requires c in s.releases
    ensures var script := ScriptOf(s, ForceUpdate(c, true, Failed, true));
      script.promotion.Some? && script.promotion.value.pending.candidate == c
  {
    hide Ancestor;
  }

  lemma RunOfTwo(s: State, a: Attempt, b: Attempt)
    ensures RunAll(s, [a, b]) == After(After(s, a), b)
  {
    hide After;
    assert [a, b][..1] == [a] && [a][..0] == [];
    assert RunAll(s, []) == s;
    assert RunAll(s, [a]) == After(s, a);
  }

  /** A moving promotion that stops just before its last write: all is done, nothing is recorded. */
  lemma StoppedBeforeRecording(s: State, op: Operation, c: Commit) returns (t: State)
    requires Valid(s) && ScriptOf(s, op).promotion.Some?
    requires ScriptOf(s, op).promotion.value.moves && ScriptOf(s, op).promotion.value.pending.candidate == c
    ensures |ScriptOf(s, op).preparation| + 3 <= |Writes(ScriptOf(s, op))|
    ensures t == StoppedAfter(s, op, |ScriptOf(s, op).preparation| + 3) && Valid(t) && Grows(s, t)
    ensures t.head == c && ActiveCommit(t) == Some(c) && t.file.installed == s.file.installed
  {
    hide ScriptOf, Valid, Run, Ancestor;
    var script := ScriptOf(s, op);
    var prep, p := script.preparation, script.promotion.value;
    t := StoppedAfter(s, op, |prep| + 3);
    StopAnywhere(s, op, |prep| + 3);
    EveryScriptIsOk(s, op);
    PreparationIsQuiet(s, prep);
    assert Writes(script)[..|prep| + 3] == prep + PromotionWrites(p)[..3];
    RunAppend(s, prep, PromotionWrites(p)[..3]);
    PromotionStillOk(s, Run(s, prep), p);
    PromotionPrefix(Run(s, prep), p, 3);
  }

  lemma StoppedAfterAnnouncing(s: State, op: Operation, c: Commit) returns (t: State)
    requires Valid(s) && ScriptOf(s, op).promotion.Some? && ScriptOf(s, op).promotion.value.pending.candidate == c
    ensures |ScriptOf(s, op).preparation| + 1 <= |Writes(ScriptOf(s, op))|
    ensures t == StoppedAfter(s, op, |ScriptOf(s, op).preparation| + 1)
    ensures t.active == s.active && t.file.installed == s.file.installed
    ensures t.file.pending.Some? && t.file.pending.value.candidate == c
  {
    hide ScriptOf, Valid, Run, Ancestor;
    var script := ScriptOf(s, op);
    var prep, p := script.preparation, script.promotion.value;
    t := StoppedAfter(s, op, |prep| + 1);
    EveryScriptIsOk(s, op);
    PreparationIsQuiet(s, prep);
    assert Writes(script)[..|prep| + 1] == prep + PromotionWrites(p)[..1];
    RunAppend(s, prep, PromotionWrites(p)[..1]);
    PromotionStillOk(s, Run(s, prep), p);
    PromotionPrefix(Run(s, prep), p, 1);
  }

  // ---------------------------------------------------------------- the workspace as an object

  /** With `left` writes to live for, `all` was written as far as possible. */
  predicate Wrote(before: State, left: nat, all: seq<Write>, after: State, leftAfter: nat) {
    var k := if left < |all| then left else |all|;
    after == Run(before, all[..k]) && leftAfter == left - k
  }

  lemma WroteBoth(s: State, l: nat, a: seq<Write>, t: State, m: nat, b: seq<Write>, u: State, n: nat)
    requires Wrote(s, l, a, t, m)
    requires if l < |a| then u == t && n == m else Wrote(t, m, b, u, n)
    ensures Wrote(s, l, a + b, u, n)
  {
    hide Run;
    if l < |a| {
      assert (a + b)[..l] == a[..l];
    } else {
      var k := if m < |b| then m else |b|;
      assert a[..|a|] == a && (a + b)[..|a| + k] == a + b[..k];
      RunAppend(s, a, b[..k]);
    }
  }

  lemma WroteLength(s: State, l: nat, a: seq<Write>, t: State, m: nat)
    requires Wrote(s, l, a, t, m)
    ensures m == if l < |a| then 0 else l - |a|
  {
  }

  /** A start of the script, stopped or not continued. */
  lemma WroteStart(s: State, l: nat, start: seq<Write>, t: State, m: nat, all: seq<Write>)
    requires Wrote(s, l, start, t, m) && start <= all
    requires l < |start| || start == all
    ensures Wrote(s, l, all, t, m)
  {
    assert l < |start| ==> all[..l] == start[..l];
  }

  lemma WroteFirst(s: State, l: nat, w: Write, t: State, m: nat, all: seq<Write>)
    requires Wrote(s, l, [w], t, m) && all != [] && all[0] == w
    requires l == 0 || all == [w]
    ensures Wrote(s, l, all, t, m)
  {
    WroteStart(s, l, [w], t, m, all);
  }

  lemma BuildWrites(s: State, c: Commit, build: Build, steady: bool, p: Promotion)
    ensures Writes(BuildScript(s, [], c, build, steady, p))
            == ReleaseWrites(s, c, build) + if HasRelease(s, c, build) && steady then PromotionWrites(p) else []
  {
    hide PromotionWrites;
    var release := ReleaseWrites(s, c, build);
    assert [] + release == release && release + [] == release;
  }

  /** Saves come first, and change nothing about what follows. */
  lemma SavesComeFirst(saves: seq<Write>, s: State, t: State, c: Commit, build: Build, steady: bool, p: Promotion)
    requires s.releases == t.releases
    ensures Writes(BuildScript(s, saves, c, build, steady, p)) == saves + Writes(BuildScript(t, [], c, build, steady, p))
  {
    hide PromotionWrites;
    var release := ReleaseWrites(s, c, build);
    assert [] + release == release && saves + [] == saves;
    assert (saves + release) + [] == saves + (release + []);
    assert (saves + release) + PromotionWrites(p) == saves + (release + PromotionWrites(p));
  }

  lemma SamePromotion(s: State, t: State, saves: seq<Write>, c: Commit, build: Build, steady: bool, p: Promotion)
    requires s.releases == t.releases
    ensures BuildScript(s, saves, c, build, steady, p).promotion == BuildScript(t, [], c, build, steady, p).promotion
  {
  }

  lemma WroteNothing(s: State, l: nat)
    ensures Wrote(s, l, [], s, l)
  {
    var none: seq<Write> := [];
    assert none[..0] == [];
  }

  lemma WroteOne(s: State, l: nat, w: Write, t: State, m: nat)
    requires if l == 0 then t == s && m == 0 else t == Apply(s, w) && m == l - 1
    ensures Wrote(s, l, [w], t, m)
  {
    assert [w][..0] == [] && [w][..1] == [w];
    assert Run(s, []) == s;
  }

  class CodeWorkspace {
    var head: Commit
    var releases: map<Commit, Release>
    var active: Option<ActiveRelease>
    var stateFile: StateFile

    /** How many durable writes the process still lives to make. */
    var writesLeft: nat

    ghost function Value(): State
      reads this
    {
      State(head, releases, active, stateFile)
    }

    constructor (head: Commit, writesLeft: nat)
      ensures this.head == head && releases == map[] && active == None && this.writesLeft == writesLeft
      ensures Valid(Value())
    {
      this.head, this.writesLeft := head, writesLeft;
      releases, active := map[], None;
      stateFile := StateFile(None, None, None, None, []);
    }

    method Perform(w: Write) returns (ok: bool)
      modifies this
      ensures Wrote(old(Value()), old(writesLeft), [w], Value(), writesLeft)
      ensures ok <==> old(writesLeft) > 0
      ensures ok ==> Value() == Apply(old(Value()), w)
    {
      ghost var s, l := Value(), writesLeft;
      if writesLeft == 0 {
        WroteOne(s, l, w, Value(), writesLeft);
        return false;
      }
      writesLeft := writesLeft - 1;
      match w {
        case Save(file) => stateFile := Trimmed(file);
        case Move(c) =>
          if Ancestor(head, c) {
            head := c;
          }
        case Publish(c, r) =>
          if c !in releases {
            releases := releases[c := r];
          }
        case Point(p) => active := Some(p);
      }
      WroteOne(s, l, w, Value(), writesLeft);
      return true;
    }

    /** The durable rename of `build_release`; an existing directory is only validated. */
    method BuildRelease(c: Commit, build: Build) returns (ok: bool)
      modifies this
      ensures Wrote(old(Value()), old(writesLeft), ReleaseWrites(old(Value()), c, build), Value(), writesLeft)
      ensures ok <==> HasRelease(old(Value()), c, build)
                      && old(writesLeft) >= |ReleaseWrites(old(Value()), c, build)|
    {
      hide Wrote;
      if c in releases {
        WroteNothing(Value(), writesLeft);
        return true;
      }
      if build.Failed? {
        WroteNothing(Value(), writesLeft);
        return false;
      }
      ok := Perform(Publish(c, Assemble(c, build)));
    }

    /** `intent`, the fast-forward merge, `activate` and the final `save`. */
    method Promote(p: Promotion) returns (done: bool)
      modifies this
      ensures Wrote(old(Value()), old(writesLeft), PromotionWrites(p), Value(), writesLeft)
      ensures done <==> old(writesLeft) >= |PromotionWrites(p)|
    {
      hide Apply;
      ghost var s, l := Value(), writesLeft;
      ghost var written := [Save(Intent(p.file, p.pending))];
      var ok := Perform(Save(Intent(p.file, p.pending)));
      if ok && p.moves {
        ghost var t, m := Value(), writesLeft;
        ok := Perform(Move(p.pending.candidate));
        WroteBoth(s, l, written, t, m, [Move(p.pending.candidate)], Value(), writesLeft);
        written := written + [Move(p.pending.candidate)];
      } else if p.moves {
        WroteBoth(s, l, written, Value(), writesLeft, [Move(p.pending.candidate)], Value(), writesLeft);
        written := written + [Move(p.pending.candidate)];
      }
      ghost var t, m := Value(), writesLeft;
      if ok {
        ok := Perform(Point(Activation(p.pending.candidate)));
      }
      WroteBoth(s, l, written, t, m, [Point(Activation(p.pending.candidate))], Value(), writesLeft);
      written := written + [Point(Activation(p.pending.candidate))];
      t, m := Value(), writesLeft;
      if ok {
        ok := Perform(Save(p.done));
      }
      WroteBoth(s, l, written, t, m, [Save(p.done)], Value(), writesLeft);
      assert written + [Save(p.done)] == PromotionWrites(p);
      done := ok;
    }

    /** A build and, unless something changed meanwhile, a promotion: the common end of every operation. */
    method BuildAndPromote(c: Commit, build: Build, steady: bool, p: Promotion) returns (done: bool)
      modifies this
      ensures Wrote(old(Value()), old(writesLeft), Writes(BuildScript(old(Value()), [], c, build, steady, p)),
                    Value(), writesLeft)
      ensures done <==> BuildScript(old(Value()), [], c, build, steady, p).promotion.Some?
                        && old(writesLeft) >= |Writes(BuildScript(old(Value()), [], c, build, steady, p))|
    {
      hide Wrote, PromotionWrites, ReleaseWrites;
      ghost var s, l, release := Value(), writesLeft, ReleaseWrites(Value(), c, build);
      ghost var rest := if HasRelease(s, c, build) && steady then PromotionWrites(p) else [];
      BuildWrites(s, c, build, steady, p);
      var ok := BuildRelease(c, build);
      ghost var t, m := Value(), writesLeft;
      WroteLength(s, l, release, t, m);
      if !ok || !steady {
        assert release + [] == release;
        if l < |release| {
          WroteBoth(s, l, release, t, m, rest, t, m);
        }
        return false;
      }
      done := Promote(p);
      WroteBoth(s, l, release, t, m, rest, Value(), writesLeft);
    }

    /** Every operation below stops, or finishes, in exactly the states of its script. */
    method Install(build: Build, steady: bool) returns (done: bool)
      modifies this
      ensures Wrote(old(Value()), old(writesLeft), Writes(InstallScript(old(Value()), build, steady)), Value(), writesLeft)
      ensures done <==> InstallScript(old(Value()), build, steady).promotion.Some?
                        && old(writesLeft) >= |Writes(InstallScript(old(Value()), build, steady))|
    {
      hide Wrote, Writes, BuildScript;
      var f, commit := stateFile, head;
      var recovered := if f.pending.Some? && f.pending.value.candidate == commit
        then Recorded("recovered " + f.pending.value.action, f.pending.value.commits, f.pending.value.reason) else [];
      var completed := f.(head := Some(commit), installed := Some(commit), pending := None,
                          decisions := f.decisions + recovered + [Decision("installed", commit, INSTALL_REASON)]);
      var p := Pending("install", commit, commit, [commit], INSTALL_INTENT);
      done := BuildAndPromote(commit, build, steady, Promotion(f, p, false, completed));
    }

    method Accept(picks: seq<Commit>, ids: nat -> nat, build: Build, reason: string, steady: bool) returns (done: bool)
      modifies this
      ensures Wrote(old(Value()), old(writesLeft), Writes(AcceptScript(old(Value()), picks, ids, build, reason, steady)),
                    Value(), writesLeft)
      ensures done <==> AcceptScript(old(Value()), picks, ids, build, reason, steady).promotion.Some?
                        && old(writesLeft) >= |Writes(AcceptScript(old(Value()), picks, ids, build, reason, steady))|
    {
      hide Wrote, BuildScript;
      if picks == [] {
        WroteNothing(Value(), writesLeft);
        return false;
      }
      var f, candidate := stateFile, CherryPicks(head, picks, ids);
      var completed := f.(head := Some(candidate), installed := Some(candidate), pending := None,
                          decisions := f.decisions + Recorded("adopted", picks, reason));
      var p := Pending("adopt", head, candidate, picks, reason);
      done := BuildAndPromote(candidate, build, steady, Promotion(f, p, true, completed));
    }

    method Update(tip: Commit, related: bool, build: Build, steady: bool) returns (done: bool)
      modifies this
      ensures Wrote(old(Value()), old(writesLeft), Writes(UpdateScript(old(Value()), tip, related, build, steady)),
                    Value(), writesLeft)
      ensures done <==> UpdateScript(old(Value()), tip, related, build, steady).promotion.Some?
                        && old(writesLeft) >= |Writes(UpdateScript(old(Value()), tip, related, build, steady))|
    {
      hide Wrote, Ancestor, Run, BuildScript;
      ghost var s, l := Value(), writesLeft;
      ghost var all, reviewed := Writes(UpdateScript(s, tip, related, build, steady)), ReviewWrites(s, tip);
      if related && Ancestor(head, tip) {
        SavesComeFirst(reviewed, s, s, tip, build, steady, UpdatePromotion(s, tip));
      }
      var ok := Perform(Save(stateFile.(head := Some(head))));
      ghost var s1, l1 := Value(), writesLeft;
      WroteLength(s, l, [Save(WithHead(s))], s1, l1);
      if !ok || !related {
        WroteFirst(s, l, Save(WithHead(s)), s1, l1, all);
        return false;
      }
      ok := Perform(Save(stateFile.(reviewed := Some(tip))));
      ghost var s2, l2 := Value(), writesLeft;
      WroteBoth(s, l, [Save(WithHead(s))], s1, l1, [reviewed[1]], s2, l2);
      assert [Save(WithHead(s))] + [reviewed[1]] == reviewed;
      WroteLength(s, l, reviewed, s2, l2);
      if !ok || !Ancestor(head, tip) {
        WroteStart(s, l, reviewed, s2, l2, all);
        return false;
      }
      var f, previous := stateFile, head;
      var completed := f.(head := Some(tip), installed := Some(tip), pending := None,
                          decisions := f.decisions + [Decision("fast-forward installed", tip, UPDATE_REASON)]);
      var p := Pending("fast-forward install", previous, tip, [tip], UPDATE_INTENT);
      done := BuildAndPromote(tip, build, steady, Promotion(f, p, previous != tip, completed));
      ghost var promotion := UpdatePromotion(s, tip);
      SavesComeFirst(reviewed, s, s2, tip, build, steady, promotion);
      SamePromotion(s, s2, reviewed, tip, build, steady, promotion);
      WroteBoth(s, l, reviewed, s2, l2, Writes(BuildScript(s2, [], tip, build, steady, promotion)), Value(), writesLeft);
    }

    method ForceUpdate(tip: Commit, clean: bool, build: Build, steady: bool) returns (done: bool)
      modifies this
      ensures Wrote(old(Value()), old(writesLeft), Writes(ForceScript(old(Value()), tip, clean, build, steady)),
                    Value(), writesLeft)
      ensures done <==> ForceScript(old(Value()), tip, clean, build, steady).promotion.Some?
                        && old(writesLeft) >= |Writes(ForceScript(old(Value()), tip, clean, build, steady))|
    {
      hide Wrote, Ancestor, Run, BuildScript, Writes;
      ghost var s, l := Value(), writesLeft;
      ghost var saved, promotion := [Save(WithHead(s))], ForcePromotion(s, tip, clean);
      SavesComeFirst(saved, s, s, tip, build, steady, promotion);
      var ok := Perform(Save(stateFile.(head := Some(head))));
      ghost var s1, l1 := Value(), writesLeft;
      WroteLength(s, l, saved, s1, l1);
      if !ok {
        WroteFirst(s, l, Save(WithHead(s)), s1, l1, Writes(ForceScript(s, tip, clean, build, steady)));
        return false;
      }
      var f, moves := stateFile, clean && Ancestor(head, tip) && head != tip;
      var completed := f.(head := Some(if moves then tip else head), installed := Some(tip), pending := None,
                          decisions := f.decisions + [Decision("force-installed main", tip, FORCE_REASON)]);
      var p := Pending("force-update main", head, tip, [tip], FORCE_REASON);
      done := BuildAndPromote(tip, build, steady, Promotion(f, p, moves, completed));
      SavesComeFirst(saved, s, s1, tip, build, steady, promotion);
      SamePromotion(s, s1, saved, tip, build, steady, promotion);
      WroteBoth(s, l, saved, s1, l1, Writes(BuildScript(s1, [], tip, build, steady, promotion)), Value(), writesLeft);
    }
  }
}
