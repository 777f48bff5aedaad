/** What the invariant means for every state a run of one page can reach. */
module PageGuarantees {
  import opened Types
  import opened PageProtocol
  import opened Coherence

  /** The state reached by `steps` from the freshly mapped page. */
  function Reached(n: nat, steps: seq<Step>, strict: bool): (s: State)
    requires n > 0 && Run(Init(n), steps, strict)
    ensures Shape(s) && |s.app| == n
  {
    Exec(Init(n), steps, strict)
  }

  lemma ReachedInv(n: nat, steps: seq<Step>, strict: bool)
    requires n > 0 && Run(Init(n), steps, strict)
    ensures Inv(Reached(n, steps, strict), strict)
  {
    InitInv(n, strict);
    RunKeeps(Init(n), steps, strict);
  }

  predicate HasCopy(s: State, i: nat)
    requires Shape(s) && i < |s.app|
  {
    !s.access[i].NoAccess?
  }

  predicate FillingRead(a: App) { a.Filling? && a.kind.Rd? }

  /** A write service has its reply, so the recorded owner may have lost its copy already. */
  predicate WriteAnswered(svc: Service) { svc.Serving? && svc.kind.Wr? && ReplyOf(svc).Some? }

  /**
   * Single writer or many readers, in runs without a failed write fetch: while a node has the page
   * open for writing no other node has any access. The one exception is the fault handler of a
   * reader, which opens its page read-write while it copies the reply in. Unless that reader is the
   * owner, or a write service has already taken the owner's copy, the exception is real: the owner
   * does have a copy. A reader that is the owner is node 0; then no write service is going on, and
   * copies are only at its recorded readers.
   */
  lemma SingleWriter(n: nat, steps: seq<Step>, a: nat)
    requires n > 0 && Run(Init(n), steps, true) && a < n
    requires Reached(n, steps, true).access[a].ReadWrite?
    ensures var s := Reached(n, steps, true);
            !FillingRead(s.app[a]) ==> forall b | 0 <= b < n && b != a :: !HasCopy(s, b)
    ensures var s := Reached(n, steps, true);
            a != s.owner && !WriteAnswered(s.svc) ==>
              (FillingRead(s.app[a]) <==> exists b | 0 <= b < n && b != a :: HasCopy(s, b))
    ensures var s := Reached(n, steps, true);
            a == s.owner && FillingRead(s.app[a]) ==>
              && a == 0 && (s.svc.Free? || s.svc.kind.Rd?)
              && forall b | 0 <= b < n && b != a && HasCopy(s, b) :: b in s.copyset
  {
    ReachedInv(n, steps, true);
    var s := Reached(n, steps, true);
    assert NodeOk(s, a, true) && NodeOk(s, s.owner, true);
    forall b | 0 <= b < n && b != a
      ensures !FillingRead(s.app[a]) ==> !HasCopy(s, b)
      ensures a == s.owner == 0 && (s.svc.Free? || s.svc.kind.Rd?) && HasCopy(s, b) ==> b in s.copyset
    {
      assert NodeOk(s, b, true);
    }
    if FillingRead(s.app[a]) && a != s.owner && !WriteAnswered(s.svc) {
      assert HasCopy(s, s.owner);
    }
  }

  /** With failed fetches, a second node may keep a copy, but only one blocked in its own write fault. */
  lemma OnlyBlockedWritersKeepCopies(n: nat, steps: seq<Step>, a: nat, b: nat)
    requires n > 0 && Run(Init(n), steps, false) && a < n && b < n && a != b
    requires var s := Reached(n, steps, false); s.access[a].ReadWrite? && !FillingRead(s.app[a]) && HasCopy(s, b)
    ensures WriteBlocked(Reached(n, steps, false).app[b])
  {
    ReachedInv(n, steps, false);
    var s := Reached(n, steps, false);
    assert NodeOk(s, a, false) && NodeOk(s, b, false);
  }

  /**
   * Failed calls and fetches that are retried do no harm: whoever has access is in the copyset, is
   * the owner, is being handed a copy, or is blocked in its own write fault; and a thread that runs
   * with access, a retried writer included, runs on the current contents.
   */
  lemma RetriesAreHarmless(n: nat, steps: seq<Step>, i: nat)
    requires n > 0 && Run(Init(n), steps, false) && i < n && HasCopy(Reached(n, steps, false), i)
    ensures var s := Reached(n, steps, false);
            i in s.copyset || i == s.owner || WriteBlocked(s.app[i])
    ensures var s := Reached(n, steps, false);
            s.app[i].Running? ==> s.mem[i] == Current(s)
  {
    ReachedInv(n, steps, false);
    var s := Reached(n, steps, false);
    assert NodeOk(s, i, false);
    if s.svc.Serving? && s.svc.req == i && s.svc.kind.Wr? {
      assert WriteBlocked(s.app[i]);
    }
  }

  /**
   * When the manager's lock is free and no write fetch has failed, the manager's record is complete:
   * access and grants in flight are only at the owner and the copyset, and all copies are current.
   */
  lemma RecordIsComplete(n: nat, steps: seq<Step>, i: nat)
    requires n > 0 && Run(Init(n), steps, true) && i < n && Reached(n, steps, true).svc.Free?
    ensures var s := Reached(n, steps, true);
            HasCopy(s, i) || s.app[i].Granted? || s.app[i].Filling? ==> i == s.owner || i in s.copyset
    ensures var s := Reached(n, steps, true);
            HasCopy(s, i) && !s.app[i].Filling? ==> s.mem[i] == Current(s)
    ensures var s := Reached(n, steps, true);
            s.app[i].Granted? && s.app[i].reply.Some? ==> s.app[i].reply.value == Current(s)
  {
    ReachedInv(n, steps, true);
    assert NodeOk(Reached(n, steps, true), i, true);
  }

  /**
   * The manager calls back neither the node it is serving nor, for a fetch, a node that already has
   * the answer: a faulting reader is not the owner, and a writer is not asked for its own page.
   */
  lemma RequesterIsNotCalled(n: nat, steps: seq<Step>, strict: bool)
    requires n > 0 && Run(Init(n), steps, strict) && Reached(n, steps, strict).svc.Serving?
    ensures var s := Reached(n, steps, strict);
            (s.svc.phase.Calling? || s.svc.phase.FetchLocked? || s.svc.phase.Reading?) && s.owner != 0 ==>
              s.owner != s.svc.req
    ensures var s := Reached(n, steps, strict);
            s.svc.kind.Rd? && s.svc.req != 0 ==> s.owner != s.svc.req
    ensures var s := Reached(n, steps, strict);
            s.svc.phase.Revoking? ==> s.svc.req !in s.svc.phase.todo && s.svc.phase.held != Some(s.svc.req)
  {
    ReachedInv(n, steps, strict);
  }

  /**
   * A service answers without a page exactly when the writer is a recorded owner other than node 0,
   * and then the writer's memory already holds the current contents.
   */
  lemma EmptyReplyIsSound(n: nat, steps: seq<Step>, strict: bool)
    requires n > 0 && Run(Init(n), steps, strict)
    requires ReplyOf(Reached(n, steps, strict).svc).Some?
    ensures var s := Reached(n, steps, strict);
            ReplyOf(s.svc).value == None <==> s.svc.req == s.owner != 0
    ensures var s := Reached(n, steps, strict);
            ReplyOf(s.svc).value == None ==> s.svc.kind.Wr? && s.mem[s.svc.req] == Current(s)
    ensures var s := Reached(n, steps, strict);
            ReplyOf(s.svc).value != None ==> ReplyOf(s.svc).value == Some(Current(s))
  {
    ReachedInv(n, steps, strict);
    var s := Reached(n, steps, strict);
    assert NodeOk(s, s.owner, strict);
  }

  /**
   * A write grant is only ever on its way to the recorded owner, and until it is installed no other
   * thread runs with access: the current contents are in that grant, or in the owner's memory.
   */
  lemma ContentsHaveOnePlace(n: nat, steps: seq<Step>, strict: bool, i: nat)
    requires n > 0 && Run(Init(n), steps, strict) && i < n
    ensures var s := Reached(n, steps, strict); WritePending(s.app[i]) ==> i == s.owner
    ensures var s := Reached(n, steps, strict);
            WritePending(s.app[s.owner]) && i != s.owner && HasCopy(s, i) ==> WriteBlocked(s.app[i])
    ensures var s := Reached(n, steps, strict);
            !WritePending(s.app[s.owner]) || s.app[s.owner] == Granted(Wr, None) ==>
              Current(s) == s.mem[s.owner]
    ensures var s := Reached(n, steps, strict);
            s.app[s.owner].Filling? && s.app[s.owner].kind.Wr? ==>
              s.app[s.owner].done <= CELLS &&
              Current(s) == s.mem[s.owner][..s.app[s.owner].done] + s.app[s.owner].page[s.app[s.owner].done..]
  {
    ReachedInv(n, steps, strict);
    var s := Reached(n, steps, strict);
    assert NodeOk(s, i, strict) && NodeOk(s, s.owner, strict);
    var a := s.app[s.owner];
    if a.Filling? {
      assert a.page == a.page[..a.done] + a.page[a.done..];
    }
  }

  // ---------- fetching ----------

  /** The handler at the owner is copying the page, in every state the run passes before its last. */
  predicate CopyingThroughout(s: State, steps: seq<Step>, strict: bool)
    requires Shape(s) && Run(s, steps, strict)
    decreases |steps|
  {
    steps == [] ||
    (s.svc.Serving? && s.svc.phase.Reading? && CopyingThroughout(Do(s, steps[0]), steps[1..], strict))
  }

  /** While it is copied out, no step changes the owner's page; the reply is all of it. */
  lemma SnapshotStep(s: State, st: Step, strict: bool)
    requires Shape(s) && Inv(s, strict) && Allowed(s, st, strict) && s.svc.Serving? && s.svc.phase.Reading?
    ensures var s' := Do(s, st);
            s'.svc.Serving? && s'.owner == s.owner && s'.mem[s.owner] == s.mem[s.owner] &&
            (s'.svc.phase.Reading? || s'.svc.phase == Fetched(Some(s.mem[s.owner])))
  {
    assert NodeOk(s, s.owner, strict);
    assert st.FetchReturn? ==> s.svc.phase.buf == s.mem[s.owner][..CELLS] == s.mem[s.owner];
  }

  /**
   * Whatever the applications and the other handlers do while the owner's page is copied out, piece
   * by piece, the page sent is the owner's page as it was when it stopped being writable.
   */
  lemma {:induction false} FetchIsASnapshot(s: State, steps: seq<Step>, strict: bool)
    requires Shape(s) && Inv(s, strict) && Run(s, steps, strict)
    requires s.svc.Serving? && s.svc.phase.Reading? && CopyingThroughout(s, steps, strict)
    ensures var t := Exec(s, steps, strict);
            t.svc.Serving? && t.owner == s.owner && t.mem[s.owner] == s.mem[s.owner] &&
            (t.svc.phase.Fetched? ==> t.svc.phase.reply == Some(s.mem[s.owner]))
    decreases |steps|
  {
    if steps == [] {
    } else {
      SnapshotStep(s, steps[0], strict);
      StepKeeps(s, steps[0], strict);
      hide Inv, Do, Allowed;
      if Do(s, steps[0]).svc.phase.Reading? {
        FetchIsASnapshot(Do(s, steps[0]), steps[1..], strict);
      } else {
        assert steps[1..] == [];
      }
    }
  }

  // ---------- lost invalidations ----------

  /**
   * Skipping the remaining invalidations keeps the invariant exactly when none of those nodes has or
   * awaits a copy, other than one that a failed write fetch may have left.
   */
  lemma LostInvalidationExactly(s: State, strict: bool)
    requires Shape(s) && Inv(s, strict) && Enabled(s, RevokeFails)
    ensures Inv(Do(s, RevokeFails), strict) <==>
            forall i | i in s.svc.phase.todo ::
              !ReadPending(s.app[i]) && (HasCopy(s, i) ==> Stale(s.app[i], strict))
  {
    var s' := Do(s, RevokeFails);
    assert Current(s') == Current(s);
    forall i | 0 <= i < |s.app|
      ensures NodeOk(s', i, strict) <==>
              (i in s.svc.phase.todo ==> !ReadPending(s.app[i]) && (HasCopy(s, i) ==> Stale(s.app[i], strict)))
    {
      assert NodeOk(s, i, strict);
      assert i in s.svc.phase.todo ==> Revoked(s', i);
    }
    assert ServiceOk(s');
  }
}
