/**
 The directory lock with owner tokens: any number of contenders, each file-system call one
 step, any stall before any step. Staleness never guards a takeover here, so every result
 holds without any timing assumption; the takeover sidecar, which only ever delays a
 takeover, is left out for the same reason. Holders that do not opt into owner tokens, and
 every other program, are the `World*` steps.
 */
module DirLock {
  import opened Prelude

  type Pid = nat
  type Token = nat

  datatype Dir = Dir(ino: nat, tokens: set<Token>, foreign: bool)

  /** Where a contender inside its callback is: between calls, or between the two calls of a check. */
  datatype Stage =
    | Entered
    | Holding(ino: nat, compromised: bool)
    | Asserting(ino: nat)
    | Finishing(ino: nat)
    | Unlinking

  datatype Phase =
    | Idle
    | Made
    | Wrote(tok: Token)
    | Retreating(tok: Token)
    | Inside(tok: Token, at: nat, stage: Stage)
    | Removing
    | Taking(todo: set<Token>)

  /** A callback that ended with its last check passed, and when it began and ended. */
  datatype Section = Section(tok: Token, entered: nat, left: nat)

  datatype Sys = Sys(dir: Option<Dir>, procs: map<Pid, Phase>, clock: nat, minted: set<Token>, done: seq<Section>)

  datatype Call =
    | Mkdir(ino: nat)
    | WriteToken(coined: Token, lands: bool, ok: bool)
    | CheckOthers(ok: bool)
    | Retreat(ok: bool)
    | Identify
    | AssertStat
    | AssertList(ok: bool)
    | TouchFails
    | FinishStat
    | FinishList(ok: bool)
    | UnlinkOwn(ok: bool)
    | RmdirOwn
    | TakeoverList
    | TakeoverUnlink(victim: Token)
    | TakeoverRmdir
    | TakeoverStop

  datatype Action =
    | Act(p: Pid, call: Call)
    | WorldMkdir(ino: nat)
    | WorldRmdir
    | WorldUnlink(victim: Token)
    | WorldForeign(present: bool)

  predicate Has(dir: Option<Dir>, t: Token) { dir.Some? && t in dir.value.tokens }

  /** Nobody else's token is in the directory. */
  predicate Alone(dir: Option<Dir>, t: Token) { dir.Some? && dir.value.tokens <= {t} }

  function Drop(dir: Option<Dir>, t: Token): Option<Dir> {
    if dir.None? then None else Some(dir.value.(tokens := dir.value.tokens - {t}))
  }

  function Rmdir(dir: Option<Dir>): Option<Dir> {
    if dir.Some? && dir.value.tokens == {} && !dir.value.foreign then None else dir
  }

  predicate SameDir(dir: Option<Dir>, ino: nat) { dir.Some? && dir.value.ino == ino }

  /** Both halves of a check seen together: still this directory, still holding exactly this token. */
  predicate CheckPasses(dir: Option<Dir>, t: Token, ok: bool) {
    ok && dir.Some? && dir.value.tokens == {t}
  }

  /** The directory, the caller's next phase, and the section it completed, if any. */
  datatype Effect = Effect(dir: Option<Dir>, phase: Phase, minted: set<Token>, closed: Option<Section>)

  function Perform(s: Sys, ph: Phase, call: Call): Effect {
    var stay := Effect(s.dir, ph, s.minted, None);
    match call
    case Mkdir(ino) =>
      if ph.Idle? && s.dir.None? then stay.(dir := Some(Dir(ino, {}, false)), phase := Made) else stay
    case WriteToken(coined, lands, ok) =>
      if !ph.Made? || coined in s.minted then stay
      else if s.dir.None? then stay.(minted := s.minted + {coined}, phase := Retreating(coined))
      else Effect(
        if lands || ok then Some(s.dir.value.(tokens := s.dir.value.tokens + {coined})) else s.dir,
        if ok then Wrote(coined) else Retreating(coined),
        s.minted + {coined}, None)
    case CheckOthers(ok) =>
      if !ph.Wrote? then stay
      else if ok && Alone(s.dir, ph.tok) then stay.(phase := Inside(ph.tok, s.clock, Entered))
      else stay.(phase := Retreating(ph.tok))
    case Retreat(ok) =>
      if !ph.Retreating? then stay
      else stay.(dir := if ok then Drop(s.dir, ph.tok) else s.dir, phase := Idle)
    case Identify =>
      if !(ph.Inside? && ph.stage.Entered?) then stay
      else if s.dir.None? then stay.(phase := Idle)
      else stay.(phase := ph.(stage := Holding(s.dir.value.ino, false)))
    case AssertStat =>
      if !(ph.Inside? && ph.stage.Holding?) || ph.stage.compromised then stay
      else if SameDir(s.dir, ph.stage.ino) then stay.(phase := ph.(stage := Asserting(ph.stage.ino)))
      else stay.(phase := ph.(stage := Holding(ph.stage.ino, true)))
    case AssertList(ok) =>
      if !(ph.Inside? && ph.stage.Asserting?) then stay
      else stay.(phase := ph.(stage := Holding(ph.stage.ino, !CheckPasses(s.dir, ph.tok, ok))))
    case TouchFails =>
      if !(ph.Inside? && ph.stage.Holding?) then stay
      else stay.(phase := ph.(stage := Holding(ph.stage.ino, true)))
    case FinishStat =>
      if !(ph.Inside? && ph.stage.Holding?) then stay
      else if !ph.stage.compromised && SameDir(s.dir, ph.stage.ino) then stay.(phase := ph.(stage := Finishing(ph.stage.ino)))
      else stay.(phase := Idle)
    case FinishList(ok) =>
      if !(ph.Inside? && ph.stage.Finishing?) then stay
      else if CheckPasses(s.dir, ph.tok, ok)
      then stay.(phase := ph.(stage := Unlinking), closed := Some(Section(ph.tok, ph.at, s.clock)))
      else stay.(phase := Idle)
    case UnlinkOwn(ok) =>
      if !(ph.Inside? && ph.stage.Unlinking?) then stay
      else if ok && Has(s.dir, ph.tok) then stay.(dir := Drop(s.dir, ph.tok), phase := Removing)
      else stay.(phase := Idle)
    case RmdirOwn =>
      if ph.Removing? then stay.(dir := Rmdir(s.dir), phase := Idle) else stay
    case TakeoverList =>
      if ph.Idle? && s.dir.Some? && !s.dir.value.foreign then stay.(phase := Taking(s.dir.value.tokens)) else stay
    case TakeoverUnlink(victim) =>
      if ph.Taking? && victim in ph.todo then stay.(dir := Drop(s.dir, victim), phase := Taking(ph.todo - {victim})) else stay
    case TakeoverRmdir =>
      if ph == Taking({}) then stay.(dir := Rmdir(s.dir), phase := Idle) else stay
    case TakeoverStop =>
      if ph.Taking? then stay.(phase := Idle) else stay
  }

  /** One step of the system; a call its caller is not ready for does nothing. */
  function Step(s: Sys, a: Action): Sys {
    var t := s.(clock := s.clock + 1);
    match a
    case Act(p, call) =>
      if p !in s.procs then t
      else
        var e := Perform(s, s.procs[p], call);
        t.(dir := e.dir, procs := s.procs[p := e.phase], minted := e.minted,
           done := if e.closed.Some? then s.done + [e.closed.value] else s.done)
    case WorldMkdir(ino) => if s.dir.None? then t.(dir := Some(Dir(ino, {}, false))) else t
    case WorldRmdir => t.(dir := Rmdir(s.dir))
    case WorldUnlink(victim) => t.(dir := Drop(s.dir, victim))
    case WorldForeign(present) => if s.dir.Some? then t.(dir := Some(s.dir.value.(foreign := present))) else t
  }

  function Run(s: Sys, actions: seq<Action>): Sys
    decreases |actions|
  {
    if actions == [] then s else Run(Step(s, actions[0]), actions[1..])
  }

  function Init(pids: set<Pid>): Sys {
    Sys(None, map p | p in pids :: Idle, 0, {}, [])
  }

  // ----- the invariant ----------------------------------------------------------------

  predicate Owns(ph: Phase) { ph.Wrote? || ph.Retreating? || ph.Inside? }

  /** Tokens are minted once, for one contender, and only minted tokens are ever on disk. */
  ghost predicate TokensFresh(s: Sys) {
    && (s.dir.Some? ==> s.dir.value.tokens <= s.minted)
    && (forall p :: p in s.procs && Owns(s.procs[p]) ==> s.procs[p].tok in s.minted)
    && (forall p, q :: p in s.procs && q in s.procs && p != q && Owns(s.procs[p]) && Owns(s.procs[q]) ==> s.procs[p].tok != s.procs[q].tok)
  }

  /** A contender that entered before another has no token in the directory any more. */
  ghost predicate OvertakenIsGone(s: Sys) {
    && (forall p :: p in s.procs && s.procs[p].Inside? ==> s.procs[p].at < s.clock)
    && (forall p, q :: p in s.procs && q in s.procs && p != q && s.procs[p].Inside? && s.procs[q].Inside? ==>
          && s.procs[p].at != s.procs[q].at
          && (s.procs[p].at < s.procs[q].at ==> !Has(s.dir, s.procs[p].tok)))
  }

  /** How a contender inside relates to a section that is over. */
  ghost predicate AfterSection(s: Sys, ph: Phase, d: Section)
    requires ph.Inside?
  {
    && (ph.at < d.entered ==> !Has(s.dir, ph.tok))
    && (ph.at == d.entered ==> ph.stage.Unlinking?)
    && (d.entered < ph.at ==> d.left <= ph.at)
  }

  ghost predicate SectionsInOrder(s: Sys) {
    && (forall i :: 0 <= i < |s.done| ==> s.done[i].entered < s.done[i].left < s.clock && s.done[i].tok in s.minted)
    && (forall i, j :: 0 <= i < j < |s.done| ==> s.done[i].left <= s.done[j].entered)
    && (forall p, i :: p in s.procs && s.procs[p].Inside? && 0 <= i < |s.done| ==> AfterSection(s, s.procs[p], s.done[i]))
  }

  ghost predicate Inv(s: Sys) {
    TokensFresh(s) && OvertakenIsGone(s) && SectionsInOrder(s)
  }

  lemma InitInv(pids: set<Pid>)
    ensures Inv(Init(pids))
  {
  }

  /** What any call may change: the only token it adds is new and its own; it enters only alone. */
  ghost predicate Shape(s: Sys, ph: Phase, e: Effect) {
    && s.minted <= e.minted
    && (e.dir.Some? ==> e.dir.value.tokens <= e.minted)
    && (forall t :: t in s.minted && Has(e.dir, t) ==> Has(s.dir, t))
    && (Owns(e.phase) ==>
          || (Owns(ph) && e.phase.tok == ph.tok)
          || (e.phase.tok !in s.minted && e.phase.tok in e.minted && !e.phase.Inside?))
    && (e.phase.Inside? ==>
          || (ph.Inside? && e.phase.at == ph.at && (ph.stage.Unlinking? || e.closed.Some? ==> e.phase.stage.Unlinking?))
          || (ph.Wrote? && e.phase.at == s.clock && Alone(s.dir, ph.tok) && e.dir == s.dir))
    && (e.closed.Some? ==>
          && ph.Inside? && !ph.stage.Unlinking? && e.phase == ph.(stage := Unlinking)
          && e.closed.value == Section(ph.tok, ph.at, s.clock)
          && Has(s.dir, ph.tok) && Alone(s.dir, ph.tok) && e.dir == s.dir)
  }

  lemma PerformShape(s: Sys, p: Pid, call: Call)
    requires TokensFresh(s) && p in s.procs
    ensures Shape(s, s.procs[p], Perform(s, s.procs[p], call))
  {
  }

  lemma ActKeepsTokensFresh(s: Sys, p: Pid, call: Call)
    requires TokensFresh(s) && p in s.procs
    ensures TokensFresh(Step(s, Act(p, call)))
  {
    PerformShape(s, p, call);
    hide Perform;
  }

  lemma ActKeepsOvertaken(s: Sys, p: Pid, call: Call)
    requires Inv(s) && p in s.procs
    ensures OvertakenIsGone(Step(s, Act(p, call)))
  {
    PerformShape(s, p, call);
    hide Perform;
  }

  lemma ActKeepsSections(s: Sys, p: Pid, call: Call)
    requires Inv(s) && p in s.procs
    ensures SectionsInOrder(Step(s, Act(p, call)))
  {
    PerformShape(s, p, call);
    hide Perform;
  }

  /** Losing tokens, or the directory, and time passing never break the invariant. */
  lemma FewerTokensKeepInv(s: Sys, dir: Option<Dir>)
    requires Inv(s)
    requires dir.Some? ==> dir.value.tokens == {} || (s.dir.Some? && dir.value.tokens <= s.dir.value.tokens)
    ensures Inv(s.(dir := dir, clock := s.clock + 1))
  {
    var t := s.(dir := dir, clock := s.clock + 1);
    assert forall k :: Has(dir, k) ==> Has(s.dir, k);
    assert TokensFresh(t);
    assert OvertakenIsGone(t);
    forall p, i | p in s.procs && s.procs[p].Inside? && 0 <= i < |s.done|
      ensures AfterSection(t, s.procs[p], s.done[i])
    {
      assert AfterSection(s, s.procs[p], s.done[i]);
    }
  }

  lemma StepKeepsInv(s: Sys, a: Action)
    requires Inv(s)
    ensures Inv(Step(s, a))
  {
    hide Perform, TokensFresh, OvertakenIsGone, SectionsInOrder;
    if a.Act? && a.p in s.procs {
      ActKeepsTokensFresh(s, a.p, a.call);
      ActKeepsOvertaken(s, a.p, a.call);
      ActKeepsSections(s, a.p, a.call);
    } else {
      FewerTokensKeepInv(s, Step(s, a).dir);
    }
  }

  lemma {:induction false} RunKeepsInv(s: Sys, actions: seq<Action>)
    requires Inv(s)
    ensures Inv(Run(s, actions))
    decreases |actions|
  {
    if actions != [] {
      StepKeepsInv(s, actions[0]);
      RunKeepsInv(Step(s, actions[0]), actions[1..]);
    }
  }

  // ----- safety of every run --------------------------------------------------------------

  /** At most one contender past its token check has its token in the directory. */
  lemma AtMostOneTokenInside(pids: set<Pid>, actions: seq<Action>, p: Pid, q: Pid)
    requires var s := Run(Init(pids), actions);
             && p in s.procs && q in s.procs && s.procs[p].Inside? && s.procs[q].Inside?
             && Has(s.dir, s.procs[p].tok) && Has(s.dir, s.procs[q].tok)
    ensures p == q
  {
    InitInv(pids);
    RunKeepsInv(Init(pids), actions);
  }

  /** Callbacks that finish uncompromised never overlap in time: each began after the last had ended. */
  lemma SectionsNeverOverlap(pids: set<Pid>, actions: seq<Action>)
    ensures var done := Run(Init(pids), actions).done;
            && (forall i :: 0 <= i < |done| ==> done[i].entered < done[i].left)
            && (forall i, j :: 0 <= i < j < |done| ==> done[i].left <= done[j].entered)
  {
    InitInv(pids);
    RunKeepsInv(Init(pids), actions);
  }

  /** A minted token that is not on disk never comes back, so no callback holding it completes. */
  lemma {:induction false} GoneForGood(s: Sys, t: Token, more: seq<Action>)
    requires Inv(s) && t in s.minted && !Has(s.dir, t)
    ensures var later := Run(s, more);
            && !Has(later.dir, t) && s.done <= later.done
            && (forall i :: |s.done| <= i < |later.done| ==> later.done[i].tok != t)
    decreases |more|
  {
    if more != [] {
      var a := more[0];
      if a.Act? && a.p in s.procs { PerformShape(s, a.p, a.call); }
      StepKeepsInv(s, a);
      GoneForGood(Step(s, a), t, more[1..]);
    }
  }

  /** Once a second contender has entered, the first can only fail its check. */
  lemma OvertakenNeverCompletes(s: Sys, p: Pid, q: Pid, more: seq<Action>)
    requires Inv(s) && p in s.procs && q in s.procs && s.procs[p].Inside? && s.procs[q].Inside?
    requires s.procs[p].at < s.procs[q].at
    ensures var later := Run(s, more);
            && !Has(later.dir, s.procs[p].tok) && !CheckPasses(later.dir, s.procs[p].tok, true)
            && (forall i :: |s.done| <= i < |later.done| ==> later.done[i].tok != s.procs[p].tok)
  {
    GoneForGood(s, s.procs[p].tok, more);
  }

  /** The call is the second half of a check, and it passed. */
  predicate Passes(s: Sys, ph: Phase, call: Call) {
    && ph.Inside?
    && ((call.AssertList? && ph.stage.Asserting? && Perform(s, ph, call).phase == ph.(stage := Holding(ph.stage.ino, false)))
        || (call.FinishList? && ph.stage.Finishing? && Perform(s, ph, call).phase != Idle))
  }

  /** A check that passes fences everybody else inside: none of them ever passes one again. */
  lemma PassingCheckFences(s: Sys, p: Pid, q: Pid, call: Call, more: seq<Action>, last: Call)
    requires Inv(s) && p in s.procs && q in s.procs && p != q && s.procs[q].Inside?
    requires Passes(s, s.procs[p], call)
    ensures s.procs[q].at < s.procs[p].at
    ensures var later := Run(s, more);
            && (forall i :: |s.done| <= i < |later.done| ==> later.done[i].tok != s.procs[q].tok)
            && (q in later.procs && later.procs[q].Inside? && later.procs[q].tok == s.procs[q].tok ==> !Passes(later, later.procs[q], last))
  {
    GoneForGood(s, s.procs[q].tok, more);
  }

  /** Whoever holds `t` inside knows that it was compromised. */
  ghost predicate Lost(s: Sys, t: Token) {
    && t in s.minted
    && forall p :: p in s.procs && Owns(s.procs[p]) && s.procs[p].tok == t && !s.procs[p].Retreating? ==>
                     s.procs[p].Inside? && s.procs[p].stage.Holding? && s.procs[p].stage.compromised
  }

  lemma StepKeepsLost(s: Sys, a: Action, t: Token)
    requires Inv(s) && Lost(s, t)
    ensures Lost(Step(s, a), t)
    ensures s.done <= Step(s, a).done && (forall i :: |s.done| <= i < |Step(s, a).done| ==> Step(s, a).done[i].tok != t)
  {
  }

  /** A compromise is never forgotten: no later check passes and no section completes. */
  lemma {:induction false} CompromiseIsFinal(s: Sys, t: Token, more: seq<Action>)
    requires Inv(s) && Lost(s, t)
    ensures Lost(Run(s, more), t)
    ensures var later := Run(s, more);
            s.done <= later.done && (forall i :: |s.done| <= i < |later.done| ==> later.done[i].tok != t)
    decreases |more|
  {
    if more != [] {
      hide Step, Lost, Inv;
      StepKeepsInv(s, more[0]);
      StepKeepsLost(s, more[0], t);
      CompromiseIsFinal(Step(s, more[0]), t, more[1..]);
    }
  }

  /** A token leaves the disk only by its owner's hand, by a takeover that listed it, or by another program. */
  lemma OnlyTakeoversRemoveOthers(s: Sys, a: Action, t: Token)
    requires Inv(s) && Has(s.dir, t) && !Has(Step(s, a).dir, t)
    ensures a.Act? ==> a.p in s.procs
    ensures || a == WorldUnlink(t)
            || (a.Act? && a.call == TakeoverUnlink(t) && s.procs[a.p].Taking? && t in s.procs[a.p].todo)
            || (a.Act? && (a.call == UnlinkOwn(true) || a.call == Retreat(true)) && Owns(s.procs[a.p]) && s.procs[a.p].tok == t)
  {
  }

  // ----- what the protocol does not promise, and what it does ---------------------------------

  lemma {:induction false} RunConcat(s: Sys, first: seq<Action>, then_: seq<Action>)
    ensures Run(s, first + then_) == Run(Run(s, first), then_)
    decreases |first|
  {
    if first == [] {
      assert first + then_ == then_;
    } else {
      assert (first + then_)[1..] == first[1..] + then_;
      RunConcat(Step(s, first[0]), first[1..], then_);
    }
  }

  lemma RunTwo(s: Sys, a: Action, b: Action)
    ensures Run(s, [a, b]) == Step(Step(s, a), b)
  {
    assert [a, b][1..] == [b] && [b][1..] == [];
    assert Run(Step(s, a), [b]) == Run(Step(Step(s, a), b), []);
  }

  function Enter(p: Pid, ino: nat, t: Token): seq<Action> {
    [Act(p, Mkdir(ino)), Act(p, WriteToken(t, true, true))] + [Act(p, CheckOthers(true)), Act(p, Identify)]
  }

  function Leave(p: Pid): seq<Action> {
    [Act(p, FinishStat), Act(p, FinishList(true))] + [Act(p, UnlinkOwn(true)), Act(p, RmdirOwn)]
  }

  function TakeOver(p: Pid, t: Token): seq<Action> {
    [Act(p, TakeoverList), Act(p, TakeoverUnlink(t))] + [Act(p, TakeoverRmdir)]
  }

  lemma Making(s: Sys, p: Pid, ino: nat, t: Token)
    requires s.dir.None? && p in s.procs && s.procs[p].Idle? && t !in s.minted
    ensures Step(Step(s, Act(p, Mkdir(ino))), Act(p, WriteToken(t, true, true)))
            == Sys(Some(Dir(ino, {t}, false)), s.procs[p := Wrote(t)], s.clock + 2, s.minted + {t}, s.done)
  {
    var made := Step(s, Act(p, Mkdir(ino)));
    assert made.procs == s.procs[p := Made] && made.dir == Some(Dir(ino, {}, false));
    assert {} + {t} == {t};
    assert made.procs[p := Wrote(t)] == s.procs[p := Wrote(t)];
  }

  lemma Checking(s: Sys, p: Pid, ino: nat, t: Token)
    requires s.dir == Some(Dir(ino, {t}, false)) && p in s.procs && s.procs[p] == Wrote(t)
    ensures Step(Step(s, Act(p, CheckOthers(true))), Act(p, Identify))
            == s.(procs := s.procs[p := Inside(t, s.clock, Holding(ino, false))], clock := s.clock + 2)
  {
    var checked := Step(s, Act(p, CheckOthers(true)));
    assert checked.procs == s.procs[p := Inside(t, s.clock, Entered)];
    assert checked.procs[p := Inside(t, s.clock, Holding(ino, false))] == s.procs[p := Inside(t, s.clock, Holding(ino, false))];
  }

  lemma Entering(s: Sys, p: Pid, ino: nat, t: Token)
    requires s.dir.None? && p in s.procs && s.procs[p].Idle? && t !in s.minted
    ensures Run(s, Enter(p, ino, t)) ==
            Sys(Some(Dir(ino, {t}, false)), s.procs[p := Inside(t, s.clock + 2, Holding(ino, false))], s.clock + 4, s.minted + {t}, s.done)
  {
    hide Step;
    var first := [Act(p, Mkdir(ino)), Act(p, WriteToken(t, true, true))];
    RunConcat(s, first, [Act(p, CheckOthers(true)), Act(p, Identify)]);
    RunTwo(s, Act(p, Mkdir(ino)), Act(p, WriteToken(t, true, true)));
    Making(s, p, ino, t);
    RunTwo(Run(s, first), Act(p, CheckOthers(true)), Act(p, Identify));
    Checking(Run(s, first), p, ino, t);
    assert s.procs[p := Wrote(t)][p := Inside(t, s.clock + 2, Holding(ino, false))] == s.procs[p := Inside(t, s.clock + 2, Holding(ino, false))];
  }

  lemma LastChecking(s: Sys, p: Pid, ino: nat, t: Token, at: nat)
    requires s.dir == Some(Dir(ino, {t}, false)) && p in s.procs && s.procs[p] == Inside(t, at, Holding(ino, false))
    ensures Step(Step(s, Act(p, FinishStat)), Act(p, FinishList(true)))
            == s.(procs := s.procs[p := Inside(t, at, Unlinking)], clock := s.clock + 2, done := s.done + [Section(t, at, s.clock + 1)])
  {
    var checked := Step(s, Act(p, FinishStat));
    assert checked.procs == s.procs[p := Inside(t, at, Finishing(ino))];
    assert checked.procs[p := Inside(t, at, Unlinking)] == s.procs[p := Inside(t, at, Unlinking)];
  }

  lemma Releasing(s: Sys, p: Pid, ino: nat, t: Token, at: nat)
    requires s.dir == Some(Dir(ino, {t}, false)) && p in s.procs && s.procs[p] == Inside(t, at, Unlinking)
    ensures Step(Step(s, Act(p, UnlinkOwn(true))), Act(p, RmdirOwn))
            == s.(dir := None, procs := s.procs[p := Idle], clock := s.clock + 2)
  {
    var unlinked := Step(s, Act(p, UnlinkOwn(true)));
    assert {t} - {t} == {};
    assert unlinked.dir == Some(Dir(ino, {}, false)) && unlinked.procs == s.procs[p := Removing];
    assert unlinked.procs[p := Idle] == s.procs[p := Idle];
  }

  lemma Leaving(s: Sys, p: Pid, ino: nat, t: Token, at: nat)
    requires s.dir == Some(Dir(ino, {t}, false)) && p in s.procs && s.procs[p] == Inside(t, at, Holding(ino, false))
    ensures Run(s, Leave(p)) == Sys(None, s.procs[p := Idle], s.clock + 4, s.minted, s.done + [Section(t, at, s.clock + 1)])
  {
    hide Step;
    var first := [Act(p, FinishStat), Act(p, FinishList(true))];
    RunConcat(s, first, [Act(p, UnlinkOwn(true)), Act(p, RmdirOwn)]);
    RunTwo(s, Act(p, FinishStat), Act(p, FinishList(true)));
    LastChecking(s, p, ino, t, at);
    RunTwo(Run(s, first), Act(p, UnlinkOwn(true)), Act(p, RmdirOwn));
    Releasing(Run(s, first), p, ino, t, at);
    assert s.procs[p := Inside(t, at, Unlinking)][p := Idle] == s.procs[p := Idle];
  }

  lemma Emptying(s: Sys, p: Pid, ino: nat, t: Token)
    requires s.dir == Some(Dir(ino, {t}, false)) && p in s.procs && s.procs[p].Idle?
    ensures Step(Step(s, Act(p, TakeoverList)), Act(p, TakeoverUnlink(t)))
            == s.(dir := Some(Dir(ino, {}, false)), procs := s.procs[p := Taking({})], clock := s.clock + 2)
  {
    var listed := Step(s, Act(p, TakeoverList));
    assert {t} - {t} == {};
    assert listed.procs == s.procs[p := Taking({t})] && listed.dir == s.dir;
    assert listed.procs[p := Taking({})] == s.procs[p := Taking({})];
  }

  lemma TakingOver(s: Sys, p: Pid, ino: nat, t: Token)
    requires s.dir == Some(Dir(ino, {t}, false)) && p in s.procs && s.procs[p].Idle?
    ensures Run(s, TakeOver(p, t)) == s.(dir := None, clock := s.clock + 3)
  {
    RunConcat(s, [Act(p, TakeoverList), Act(p, TakeoverUnlink(t))], [Act(p, TakeoverRmdir)]);
    RunTwo(s, Act(p, TakeoverList), Act(p, TakeoverUnlink(t)));
    Emptying(s, p, ino, t);
    var emptied := s.(dir := Some(Dir(ino, {}, false)), procs := s.procs[p := Taking({})], clock := s.clock + 2);
    assert [Act(p, TakeoverRmdir)][1..] == [];
    assert Run(emptied, [Act(p, TakeoverRmdir)]) == Step(emptied, Act(p, TakeoverRmdir));
    assert emptied.procs[p := Idle] == s.procs;
  }

  /** Left alone, a contender gets the lock, completes its callback and leaves no trace of it. */
  lemma AloneSucceeds(s: Sys, p: Pid, ino: nat, t: Token)
    requires s.dir.None? && p in s.procs && s.procs[p].Idle? && t !in s.minted
    ensures var later := Run(s, Enter(p, ino, t) + Leave(p));
            later.dir.None? && later.procs == s.procs && later.done == s.done + [Section(t, s.clock + 2, s.clock + 5)]
  {
    hide Step;
    RunConcat(s, Enter(p, ino, t), Leave(p));
    Entering(s, p, ino, t);
    Leaving(Run(s, Enter(p, ino, t)), p, ino, t, s.clock + 2);
  }

  /**
   Two callbacks may run at once: after a takeover neither knows, even when the directory
   comes back with the same inode. The first to ask is told; the second passes.
   */
  lemma TakeoverLetsTwoIn(s: Sys, p: Pid, q: Pid, ino: nat, t: Token, u: Token)
    requires s.dir.None? && p in s.procs && s.procs[p].Idle? && q in s.procs && s.procs[q].Idle? && p != q
    requires t !in s.minted && u !in s.minted && t != u
    ensures var both := Run(s, Enter(p, ino, t) + TakeOver(q, t) + Enter(q, ino, u));
            && p in both.procs && both.procs[p] == Inside(t, s.clock + 2, Holding(ino, false))
            && q in both.procs && both.procs[q] == Inside(u, s.clock + 9, Holding(ino, false))
            && !CheckPasses(both.dir, t, true) && CheckPasses(both.dir, u, true)
  {
    hide Step;
    RunConcat(s, Enter(p, ino, t) + TakeOver(q, t), Enter(q, ino, u));
    RunConcat(s, Enter(p, ino, t), TakeOver(q, t));
    Entering(s, p, ino, t);
    var held := Run(s, Enter(p, ino, t));
    TakingOver(held, q, ino, t);
    Entering(Run(held, TakeOver(q, t)), q, ino, u);
  }
}
