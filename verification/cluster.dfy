/** The nodes together: the manager's service, the fault handlers, and the applications' accesses. */
module IvyCluster {
  import opened Types
  import opened NumberText
  import opened PageProtocol
  import opened PageText
  import opened RequestText
  import opened IvyNodes
  import opened Coherence
  import opened AtomicFaults

  predicate IsPage(addr: nat) { addr < WORD_LIMIT && addr % PAGE_BYTES == 0 }

  lemma PageRequest(addr: nat, node: nat)
    requires IsPage(addr) && node < WORD_LIMIT
    ensures TextToRequest(RequestToText(addr, node)) == Ok(Request(addr, node))
  {
    hide TextToRequest, RequestToText;
    RequestRoundTrip(addr, node);
  }

  type AccessMap = map<nat, Access>
  type PageMap = map<nat, Page>

  /** Node i's access to one page is set. */
  function WithAccess(maps: seq<AccessMap>, i: nat, addr: nat, to: Access): (r: seq<AccessMap>)
    requires i < |maps|
    ensures |r| == |maps|
  {
    var m: AccessMap := maps[i][addr := to];
    maps[i := m]
  }

  /** Node i's copy of one page is set. */
  function WithPage(mems: seq<PageMap>, i: nat, addr: nat, page: Page): (r: seq<PageMap>)
    requires i < |mems|
    ensures |r| == |mems|
  {
    var m: PageMap := mems[i][addr := page];
    mems[i := m]
  }

  /** The elements of a set, in some order. */
  method Listed(s: set<nat>) returns (list: seq<nat>)
    ensures forall x :: x in list <==> x in s
  {
    list := [];
    var rest := s;
    while rest != {}
      invariant forall x :: x in s <==> x in rest || x in list
      decreases rest
    {
      var x :| x in rest;
      rest, list := rest - {x}, list + [x];
    }
  }

  ghost function Elements(list: seq<nat>): set<nat> { set x | x in list }

  /** Every node of `who` has lost its access to the page. */
  function ClosedMaps(maps: seq<AccessMap>, addr: nat, who: set<nat>): (r: seq<AccessMap>)
    ensures |r| == |maps|
  {
    seq(|maps|, i requires 0 <= i < |maps| => if i in who then maps[i][addr := NoAccess] else maps[i])
  }

  lemma ClosedTwice(maps: seq<AccessMap>, addr: nat, a: set<nat>, b: set<nat>)
    ensures ClosedMaps(ClosedMaps(maps, addr, a), addr, b) == ClosedMaps(maps, addr, a + b)
  {
    forall i | 0 <= i < |maps|
      ensures ClosedMaps(ClosedMaps(maps, addr, a), addr, b)[i] == ClosedMaps(maps, addr, a + b)[i]
    {
      var m: AccessMap := maps[i];
      assert m[addr := NoAccess][addr := NoAccess] == m[addr := NoAccess];
    }
  }

  predicate NamesNodes(rec: Info, n: nat) {
    rec.owner < n && forall i | i in rec.copyset :: i < n
  }

  /** The nodes that a write request leaves without access; a writer that owns the page keeps it. */
  function Losers(rec: Info, req: nat): set<nat> { FetchedFrom(rec, req) + (rec.copyset - {req}) }

  /** The lock for the page can be taken at every node of `who`; node 0 takes none. */
  predicate Unlocked(locks: seq<set<nat>>, addr: nat, who: set<nat>) {
    forall i | i in who :: i < |locks| && (i != 0 ==> addr !in locks[i])
  }

  /** Taking node 0's locks for the page and giving them back. */
  lemma Relocked(locks: seq<set<nat>>, infos: set<nat>, addr: nat)
    requires |locks| > 0 && addr !in locks[0] && addr !in infos
    ensures locks[0 := locks[0] + {addr}][0 := locks[0] + {addr} - {addr}] == locks
    ensures infos + {addr} - {addr} == infos
  {
    assert locks[0] + {addr} - {addr} == locks[0];
  }

  /** Where the page for a writer is fetched: at its owner, or nowhere if that is the writer. */
  function FetchedFrom(rec: Info, req: nat): set<nat> {
    if rec.owner != 0 && rec.owner == req then {} else {rec.owner}
  }

  lemma ClosedNowhere(maps: seq<AccessMap>, addr: nat)
    ensures ClosedMaps(maps, addr, {}) == maps
  {
  }

  // ---------- which calls are lost ----------

  /** The next call to another node is lost. */
  predicate LosesNext(drops: seq<bool>) { drops != [] && drops[0] }

  function AfterCall(drops: seq<bool>): seq<bool> { if drops == [] then [] else drops[1..] }

  /** What is left of the script when a fetch has been made as often as it takes. */
  function AfterFetches(drops: seq<bool>, remote: bool): seq<bool> {
    if !remote then drops
    else if LosesNext(drops) then AfterFetches(drops[1..], remote)
    else AfterCall(drops)
  }

  /** The same for a request and the fetch behind it. */
  function AfterRequest(drops: seq<bool>, fromZero: bool, remote: bool): seq<bool> {
    AfterFetches(if fromZero then drops else AfterCall(drops), remote)
  }

  /** The same for a fault: its request is made again until it goes through. */
  function AfterFault(drops: seq<bool>, fromZero: bool, remote: bool): seq<bool> {
    if !fromZero && LosesNext(drops) then AfterFault(drops[1..], fromZero, remote)
    else AfterRequest(drops, fromZero, remote)
  }

  /** The page is fetched by a call to another node. */
  predicate FetchIsRemote(rec: Info, req: nat, k: Kind) { rec.owner != 0 && (k.Wr? ==> rec.owner != req) }

  // ---------- the nodes' maps, seen page by page ----------

  function AccessIn(m: AccessMap, addr: nat): Access { if addr in m then m[addr] else NoAccess }

  function PageIn(m: PageMap, addr: nat): Page { if addr in m then m[addr] else ZeroPage() }

  function InfoIn(m: map<nat, Info>, addr: nat): Info { if addr in m then m[addr] else Info({}, 0) }

  /** The one-page state that the nodes' maps hold for `addr`, when no fault is being served. */
  function ViewOf(maps: seq<AccessMap>, mems: seq<PageMap>, info: map<nat, Info>, addr: nat): State
    requires |maps| == |mems|
  {
    State(seq(|maps|, i requires 0 <= i < |maps| => AccessIn(maps[i], addr)),
          seq(|maps|, i requires 0 <= i < |maps| => PageIn(mems[i], addr)),
          seq(|maps|, _ => false),
          seq(|maps|, _ => Running),
          InfoIn(info, addr).owner, InfoIn(info, addr).copyset, Free)
  }

  /** The maps after a read fault. */
  function ReadMaps(maps: seq<AccessMap>, addr: nat, owner: nat, i: nat): seq<AccessMap>
    requires owner < |maps| && i < |maps|
  {
    WithAccess(WithAccess(maps, owner, addr, ReadOnly), i, addr, ReadOnly)
  }

  lemma ReadView(maps: seq<AccessMap>, mems: seq<PageMap>, info: map<nat, Info>, addr: nat, i: nat, b: nat)
    requires |maps| == |mems| && Shape(ViewOf(maps, mems, info, addr)) && i < |maps|
    ensures var rec := InfoIn(info, addr);
            ViewOf(ReadMaps(maps, addr, rec.owner, i), WithPage(mems, i, addr, PageIn(mems[rec.owner], addr)),
                   info[addr := Info(rec.copyset + {i}, rec.owner)], b)
            == if b == addr then AtomicRead(ViewOf(maps, mems, info, addr), i) else ViewOf(maps, mems, info, b)
  {
    var rec := InfoIn(info, addr);
    var v := ViewOf(ReadMaps(maps, addr, rec.owner, i), WithPage(mems, i, addr, PageIn(mems[rec.owner], addr)),
                    info[addr := Info(rec.copyset + {i}, rec.owner)], b);
    var w := if b == addr then AtomicRead(ViewOf(maps, mems, info, addr), i) else ViewOf(maps, mems, info, b);
    assert v.access == w.access && v.mem == w.mem;
  }

  /** The maps after a write fault; the page is copied only if the writer did not own it. */
  predicate Written(maps: seq<AccessMap>, mems: seq<PageMap>, info: map<nat, Info>, addr: nat, i: nat,
                    maps': seq<AccessMap>, mems': seq<PageMap>, info': map<nat, Info>)
    requires |maps| == |mems| && i < |maps| && InfoIn(info, addr).owner < |maps|
  {
    var rec := InfoIn(info, addr);
    var keeps := rec.owner != 0 && rec.owner == i;
    var closed := ClosedMaps(maps, addr, Losers(rec, i));
    && info' == info[addr := Info({}, i)]
    && maps' == WithAccess(closed, i, addr, ReadWrite)
    && mems' == if keeps then mems else WithPage(mems, i, addr, PageIn(mems[rec.owner], addr))
  }

  lemma WriteView(maps: seq<AccessMap>, mems: seq<PageMap>, info: map<nat, Info>, addr: nat, i: nat, b: nat,
                  maps': seq<AccessMap>, mems': seq<PageMap>, info': map<nat, Info>)
    requires |maps| == |mems| && Shape(ViewOf(maps, mems, info, addr)) && i < |maps|
    requires Written(maps, mems, info, addr, i, maps', mems', info')
    ensures ViewOf(maps', mems', info', b)
            == if b == addr then AtomicWrite(ViewOf(maps, mems, info, addr), i) else ViewOf(maps, mems, info, b)
  {
    var v := ViewOf(maps', mems', info', b);
    var w := if b == addr then AtomicWrite(ViewOf(maps, mems, info, addr), i) else ViewOf(maps, mems, info, b);
    assert v.access == w.access && v.mem == w.mem;
  }

  /** One word of node i's copy is set. */
  function WithWord(s: State, i: nat, off: nat, value: Word): State
    requires i < |s.mem| && off < CELLS
  {
    s.(mem := s.mem[i := s.mem[i][off := value]])
  }

  /** A load faults for reading if the page is closed to the node, and changes nothing else. */
  function AfterLoad(s: State, i: nat): (s': State)
    requires Shape(s) && i < |s.app|
    ensures Shape(s') && |s'.app| == |s.app|
  {
    if s.access[i].NoAccess? then AtomicRead(s, i) else s
  }

  /** A store faults for writing unless the page is open to the node, and then sets its word there. */
  function AfterStore(s: State, i: nat, off: nat, value: Word): (s': State)
    requires Shape(s) && i < |s.app| && off < CELLS
    ensures Shape(s') && |s'.app| == |s.app|
  {
    WithWord(if s.access[i].ReadWrite? then s else AtomicWrite(s, i), i, off, value)
  }

  lemma StoreView(maps: seq<AccessMap>, mems: seq<PageMap>, info: map<nat, Info>, addr: nat, i: nat, off: nat,
                  value: Word, b: nat)
    requires |maps| == |mems| && i < |maps| && off < CELLS
    requires Shape(ViewOf(maps, mems, info, addr)) && Inv(ViewOf(maps, mems, info, addr), true)
    requires Shape(ViewOf(maps, mems, info, b)) && Inv(ViewOf(maps, mems, info, b), true)
    requires AccessIn(maps[i], addr).ReadWrite?
    ensures var s := ViewOf(maps, mems, info, b);
            var s' := ViewOf(maps, WithPage(mems, i, addr, PageIn(mems[i], addr)[off := value]), info, b);
            && Shape(s') && Inv(s', true)
            && Current(s') == (if b == addr then Current(s)[off := value] else Current(s))
            && s' == if b == addr then WithWord(s, i, off, value) else s
  {
    var s := ViewOf(maps, mems, info, b);
    var s' := ViewOf(maps, WithPage(mems, i, addr, PageIn(mems[i], addr)[off := value]), info, b);
    if b == addr {
      var st := Step.AppStore(i, off, value);
      StepKeeps(s, st, true);
      assert s'.access == s.access && s'.locked == s.locked && s'.app == s.app;
      assert s'.mem == Do(s, st).mem;
      assert s' == Do(s, st);
    } else {
      assert s'.mem == s.mem && s'.access == s.access && s'.locked == s.locked && s'.app == s.app;
      assert s' == s;
    }
  }

  /** A node as it starts: the region is closed and zero, and the page table is empty. */
  ghost predicate Blank(node: Ivy)
    reads node, node.pgTbl
  {
    node.access == map[] && node.mem == map[] &&
    node.pgTbl.pageLocks == {} && node.pgTbl.infoLocks == {} && node.pgTbl.info == map[]
  }

  class Cluster {
    const nodes: seq<Ivy>

    /** Which of the coming fetches and requests are lost; after these every call goes through. */
    var drops: seq<bool>

    constructor (n: nat, drops: seq<bool>)
      requires 0 < n <= WORD_LIMIT
      ensures Wired() && |nodes| == n && this.drops == drops && Untouched()
      ensures fresh(Nodes()) && fresh(Tables())
    {
      var list: seq<Ivy> := [];
      while |list| < n
        invariant |list| <= n
        invariant forall i | 0 <= i < |list| :: fresh(list[i]) && fresh(list[i].pgTbl) && list[i].id == i
        invariant forall i, j | 0 <= i < j < |list| :: list[i] != list[j] && list[i].pgTbl != list[j].pgTbl
        invariant forall i | 0 <= i < |list| :: Blank(list[i])
      {
        var node := new Ivy(|list|);
        list := list + [node];
      }
      nodes := list;
      this.drops := drops;
    }

    /** Nothing has happened on any node. */
    ghost predicate Untouched()
      reads Nodes(), Tables()
    {
      forall i | 0 <= i < |nodes| :: Blank(nodes[i])
    }

    /** Nodes and page tables are all different objects, and a node's id is its position. */
    ghost predicate Wired() {
      && 0 < |nodes| <= WORD_LIMIT
      && (forall i | 0 <= i < |nodes| :: nodes[i].id == i)
      && (forall i, j | 0 <= i < j < |nodes| :: nodes[i] != nodes[j] && nodes[i].pgTbl != nodes[j].pgTbl)
    }

    ghost function Nodes(): set<Ivy> { set i | 0 <= i < |nodes| :: nodes[i] }

    ghost function Tables(): set<IvyPageTable> { set i | 0 <= i < |nodes| :: nodes[i].pgTbl }

    function Owner(addr: nat): nat
      requires 0 < |nodes|
      reads nodes[0].pgTbl`info
    {
      nodes[0].pgTbl.InfoAt(addr).owner
    }

    function Copyset(addr: nat): set<nat>
      requires 0 < |nodes|
      reads nodes[0].pgTbl`info
    {
      nodes[0].pgTbl.InfoAt(addr).copyset
    }

    /** The manager's record of a page names existing nodes only. */
    ghost predicate RecordOk(addr: nat)
      requires 0 < |nodes|
      reads nodes[0].pgTbl`info
    {
      NamesNodes(nodes[0].pgTbl.InfoAt(addr), |nodes|)
    }

    function OwnerNode(addr: nat): Ivy
      requires 0 < |nodes| && Owner(addr) < |nodes|
      reads nodes[0].pgTbl`info
    {
      nodes[Owner(addr)]
    }

    /** Takes the next entry of the script; a lost call leaves fewer failures to come. */
    method CallIsLost() returns (lost: bool)
      modifies this`drops
      ensures lost == LosesNext(old(drops)) && drops == AfterCall(old(drops))
    {
      lost := false;
      if drops != [] {
        lost, drops := drops[0], drops[1..];
      }
    }

    /** A fetch was tried: it is lost if it is a remote call and the script says so. */
    ghost predicate FetchTried(was: seq<bool>, remote: bool, lost: bool)
      reads this`drops
    {
      (lost <==> remote && LosesNext(was)) && drops == if remote then AfterCall(was) else was
    }

    /** The lock of node i for the page can be taken, or node i takes none. */
    ghost predicate CanLock(i: nat, addr: nat)
      requires i < |nodes|
      reads nodes[i].pgTbl`pageLocks
    {
      i != 0 ==> addr !in nodes[i].pgTbl.pageLocks
    }

    ghost predicate ManagerFree(addr: nat)
      requires 0 < |nodes|
      reads nodes[0].pgTbl
    {
      addr !in nodes[0].pgTbl.pageLocks && addr !in nodes[0].pgTbl.infoLocks
    }

    method LockManager(addr: nat)
      requires Wired() && ManagerFree(addr)
      modifies nodes[0].pgTbl`pageLocks, nodes[0].pgTbl`infoLocks
      ensures LockSets() == old(LockSets())[0 := old(LockSets())[0] + {addr}] && addr in nodes[0].pgTbl.pageLocks
      ensures nodes[0].pgTbl.infoLocks == old(nodes[0].pgTbl.infoLocks) + {addr}
    {
      nodes[0].LockPage(addr);
      nodes[0].pgTbl.infoLocks := nodes[0].pgTbl.infoLocks + {addr};
    }

    method UnlockManager(addr: nat)
      requires Wired() && addr in nodes[0].pgTbl.pageLocks && addr in nodes[0].pgTbl.infoLocks
      modifies nodes[0].pgTbl`pageLocks, nodes[0].pgTbl`infoLocks
      ensures LockSets() == old(LockSets())[0 := old(LockSets())[0] - {addr}]
      ensures nodes[0].pgTbl.infoLocks == old(nodes[0].pgTbl.infoLocks) - {addr}
    {
      nodes[0].pgTbl.infoLocks := nodes[0].pgTbl.infoLocks - {addr};
      nodes[0].UnlockPage(addr);
    }

    /** Fetches the page from its owner; node 0 asks itself directly, and that call is never lost. */
    method FetchFromOwner(addr: nat, to: Access) returns (text: Option<string>)
      requires Wired() && IsPage(addr) && RecordOk(addr) && !to.ReadWrite?
      requires CanLock(Owner(addr), addr)
      modifies this`drops, OwnerNode(addr)`access, OwnerNode(addr).pgTbl`pageLocks
      ensures OwnerNode(addr).pgTbl.pageLocks == old(OwnerNode(addr).pgTbl.pageLocks)
      ensures text.None? <==> Owner(addr) != 0 && LosesNext(old(drops))
      ensures drops == if Owner(addr) != 0 then AfterCall(old(drops)) else old(drops)
      ensures var o := OwnerNode(addr);
              if text.None? then o.access == old(o.access)
              else o.access == old(o.access)[addr := to] && text.value == PageToText(o.PageAt(addr))
    {
      var owner := Owner(addr);
      FetchRoundTrip(addr, to);
      if owner != 0 {
        var lost := CallIsLost();
        if lost {
          return None;
        }
      }
      var r := nodes[owner].FetchPgAdapter(FetchToText(addr, to));
      text := Some(r.value);
    }

    // ---------- all nodes at once ----------

    ghost function AccessMaps(): (r: seq<AccessMap>)
      reads Nodes()
      ensures |r| == |nodes|
      ensures forall i | 0 <= i < |nodes| :: r[i] == nodes[i].access
    {
      seq(|nodes|, i requires 0 <= i < |nodes| reads Nodes() => nodes[i].access)
    }

    ghost function MemMaps(): (r: seq<PageMap>)
      reads Nodes()
      ensures |r| == |nodes|
      ensures forall i | 0 <= i < |nodes| :: r[i] == nodes[i].mem
    {
      seq(|nodes|, i requires 0 <= i < |nodes| reads Nodes() => nodes[i].mem)
    }

    ghost function LockSets(): (r: seq<set<nat>>)
      reads Tables()
      ensures |r| == |nodes|
      ensures forall i | 0 <= i < |nodes| :: r[i] == nodes[i].pgTbl.pageLocks
    {
      seq(|nodes|, i requires 0 <= i < |nodes| reads Tables() => nodes[i].pgTbl.pageLocks)
    }

    /** Sends one invalidation; like all of them it is answered "ok". */
    method InvalidateOne(addr: nat, i: nat)
      requires Wired() && IsPage(addr) && i < |nodes| && CanLock(i, addr)
      modifies Nodes()`access, Tables()`pageLocks
      ensures LockSets() == old(LockSets())
      ensures AccessMaps() == ClosedMaps(old(AccessMaps()), addr, {i})
    {
      InvalidationRoundTrip(addr);
      var ok := nodes[i].InvalidateAdapter(ToString(addr));
    }

    method SendInvalidations(addr: nat, list: seq<nat>)
      requires Wired() && IsPage(addr)
      requires forall k | 0 <= k < |list| :: list[k] < |nodes| && CanLock(list[k], addr)
      modifies Nodes()`access, Tables()`pageLocks
      ensures LockSets() == old(LockSets())
      ensures AccessMaps() == ClosedMaps(old(AccessMaps()), addr, Elements(list))
    {
      assert AccessMaps() == ClosedMaps(AccessMaps(), addr, Elements(list[..0]));
      for k := 0 to |list|
        invariant LockSets() == old(LockSets())
        invariant AccessMaps() == ClosedMaps(old(AccessMaps()), addr, Elements(list[..k]))
      {
        assert LockSets()[list[k]] == old(LockSets())[list[k]];
        InvalidateOne(addr, list[k]);
        ClosedTwice(old(AccessMaps()), addr, Elements(list[..k]), {list[k]});
        assert list[..k + 1] == list[..k] + [list[k]];
        assert Elements(list[..k + 1]) == Elements(list[..k]) + {list[k]};
      }
      assert list[..|list|] == list;
    }

    /** What a read service makes of the maps, when it goes through and when its fetch is lost. */
    ghost predicate ReadServed(maps: seq<AccessMap>, info: map<nat, Info>, addr: nat, req: nat, reply: Option<string>)
      requires 0 < |nodes| == |maps| && InfoIn(info, addr).owner < |nodes|
      reads Nodes(), Tables()
    {
      var rec := InfoIn(info, addr);
      && nodes[0].pgTbl.info == info[addr := Info(rec.copyset + {req}, rec.owner)]
      && if reply.None? then AccessMaps() == maps
         else
           && reply.value == PageToText(nodes[rec.owner].PageAt(addr))
           && AccessMaps() == WithAccess(maps, rec.owner, addr, ReadOnly)
    }

    /** The part of a read service between taking and giving back the manager's locks. */
    method ServeReader(addr: nat, req: nat) returns (reply: Option<string>)
      requires Wired() && IsPage(addr) && req < |nodes| && RecordOk(addr) && CanLock(Owner(addr), addr)
      modifies this`drops, nodes[0].pgTbl`info, Nodes()`access, Tables()`pageLocks
      ensures LockSets() == old(LockSets())
      ensures FetchTried(old(drops), FetchIsRemote(old(nodes[0].pgTbl.InfoAt(addr)), req, Rd), reply.None?)
      ensures ReadServed(old(AccessMaps()), old(nodes[0].pgTbl.info), addr, req, reply)
    {
      nodes[0].pgTbl.Insert(addr, req);
      assert Copyset(addr) == old(Copyset(addr)) + {req};
      reply := FetchFromOwner(addr, ReadOnly);
    }

    method ServRdRq(addr: nat, req: nat) returns (reply: Option<string>)
      requires Wired() && IsPage(addr) && req < |nodes| && RecordOk(addr) && ManagerFree(addr)
      requires CanLock(Owner(addr), addr)
      modifies this`drops, nodes[0].pgTbl, Nodes()`access, Tables()`pageLocks
      ensures LockSets() == old(LockSets()) && nodes[0].pgTbl.infoLocks == old(nodes[0].pgTbl.infoLocks)
      ensures FetchTried(old(drops), FetchIsRemote(old(nodes[0].pgTbl.InfoAt(addr)), req, Rd), reply.None?)
      ensures ReadServed(old(AccessMaps()), old(nodes[0].pgTbl.info), addr, req, reply)
    {
      ghost var locks, infos := LockSets(), nodes[0].pgTbl.infoLocks;
      LockManager(addr);
      reply := ServeReader(addr, req);
      assert addr in LockSets()[0];
      UnlockManager(addr);
      Relocked(locks, infos, addr);
    }

    /** Whether a write request is answered without a page: the writer already owns it. */
    predicate OwnsAlready(addr: nat, req: nat)
      requires 0 < |nodes|
      reads nodes[0].pgTbl`info
    {
      Owner(addr) != 0 && Owner(addr) == req
    }

    /** The page for a writer, or nothing if the writer has it; None if the call was lost. */
    method PageForWriter(addr: nat, req: nat) returns (page: Option<string>)
      requires Wired() && IsPage(addr) && req < |nodes| && RecordOk(addr)
      requires Unlocked(LockSets(), addr, FetchedFrom(nodes[0].pgTbl.InfoAt(addr), req))
      modifies this`drops, Nodes()`access, Tables()`pageLocks
      ensures LockSets() == old(LockSets())
      ensures FetchTried(old(drops), FetchIsRemote(nodes[0].pgTbl.InfoAt(addr), req, Wr), page.None?)
      ensures page.None? ==> AccessMaps() == old(AccessMaps())
      ensures page.Some? ==>
                && page.value == (if OwnsAlready(addr, req) then "" else PageToText(OwnerNode(addr).PageAt(addr)))
                && AccessMaps() == ClosedMaps(old(AccessMaps()), addr, FetchedFrom(nodes[0].pgTbl.InfoAt(addr), req))
    {
      if OwnsAlready(addr, req) {
        ClosedNowhere(AccessMaps(), addr);
        return Some("");
      }
      assert Owner(addr) in FetchedFrom(nodes[0].pgTbl.InfoAt(addr), req);
      page := FetchFromOwner(addr, NoAccess);
    }

    /** What a write service makes of the maps, when it goes through and when its fetch is lost. */
    ghost predicate WriteServed(maps: seq<AccessMap>, info: map<nat, Info>, addr: nat, req: nat, reply: Option<string>)
      requires 0 < |nodes| == |maps| && InfoIn(info, addr).owner < |nodes|
      reads Nodes(), Tables()
    {
      var rec := InfoIn(info, addr);
      var keeps := rec.owner != 0 && rec.owner == req;
      if reply.None? then
        && nodes[0].pgTbl.info == info[addr := Info(rec.copyset - {req}, rec.owner)]
        && AccessMaps() == maps
      else
        && nodes[0].pgTbl.info == info[addr := Info({}, req)]
        && reply.value == (if keeps then "" else PageToText(nodes[rec.owner].PageAt(addr)))
        && AccessMaps() == ClosedMaps(maps, addr, Losers(rec, req))
    }

    /** The locks that serving a write request takes on the way can all be taken. */
    ghost predicate CanClose(addr: nat, req: nat)
      requires 0 < |nodes|
      reads Nodes(), Tables()
    {
      Unlocked(LockSets(), addr, Losers(nodes[0].pgTbl.InfoAt(addr), req))
    }

    /** Invalidates the readers and hands the page over. */
    method Transfer(addr: nat, req: nat, readers: set<nat>)
      requires Wired() && IsPage(addr) && req < |nodes|
      requires Unlocked(LockSets(), addr, readers)
      modifies nodes[0].pgTbl`info, Nodes()`access, Tables()`pageLocks
      ensures LockSets() == old(LockSets())
      ensures nodes[0].pgTbl.info == old(nodes[0].pgTbl.info)[addr := Info({}, req)]
      ensures AccessMaps() == ClosedMaps(old(AccessMaps()), addr, readers)
    {
      var list := Listed(readers);
      assert Elements(list) == readers;
      assert forall k | 0 <= k < |list| :: list[k] in readers && LockSets()[list[k]] == nodes[list[k]].pgTbl.pageLocks;
      SendInvalidations(addr, list);
      nodes[0].pgTbl.SetOwner(addr, req);
    }

    /** The first half of a write service: the writer leaves the copyset, and the page is fetched. */
    method FetchForWriter(addr: nat, req: nat) returns (page: Option<string>, readers: set<nat>)
      requires Wired() && IsPage(addr) && req < |nodes| && RecordOk(addr)
      requires Unlocked(LockSets(), addr, FetchedFrom(nodes[0].pgTbl.InfoAt(addr), req))
      modifies this`drops, nodes[0].pgTbl`info, Nodes()`access, Tables()`pageLocks
      ensures LockSets() == old(LockSets())
      ensures FetchTried(old(drops), FetchIsRemote(old(nodes[0].pgTbl.InfoAt(addr)), req, Wr), page.None?)
      ensures var rec := old(nodes[0].pgTbl.InfoAt(addr));
              && nodes[0].pgTbl.info == old(nodes[0].pgTbl.info)[addr := Info(rec.copyset - {req}, rec.owner)]
              && rec.owner < |nodes| && readers == rec.copyset - {req}
              && (page.None? ==> AccessMaps() == old(AccessMaps()))
              && (page.Some? ==>
                    && page.value == (if rec.owner != 0 && rec.owner == req then ""
                                      else PageToText(nodes[rec.owner].PageAt(addr)))
                    && AccessMaps() == ClosedMaps(old(AccessMaps()), addr, FetchedFrom(rec, req)))
    {
      ghost var rec := nodes[0].pgTbl.InfoAt(addr);
      nodes[0].pgTbl.Erase(addr, req);
      assert nodes[0].pgTbl.InfoAt(addr) == Info(rec.copyset - {req}, rec.owner);
      assert FetchedFrom(nodes[0].pgTbl.InfoAt(addr), req) == FetchedFrom(rec, req);
      readers := Copyset(addr);
      page := PageForWriter(addr, req);
    }

    /** The part of a write service between taking and giving back the manager's locks. */
    method ServeWriter(addr: nat, req: nat) returns (reply: Option<string>)
      requires Wired() && IsPage(addr) && req < |nodes| && RecordOk(addr)
      requires CanClose(addr, req)
      modifies this`drops, nodes[0].pgTbl`info, Nodes()`access, Tables()`pageLocks
      ensures LockSets() == old(LockSets())
      ensures FetchTried(old(drops), FetchIsRemote(old(nodes[0].pgTbl.InfoAt(addr)), req, Wr), reply.None?)
      ensures WriteServed(old(AccessMaps()), old(nodes[0].pgTbl.info), addr, req, reply)
    {
      ghost var maps, rec := AccessMaps(), nodes[0].pgTbl.InfoAt(addr);
      var readers;
      reply, readers := FetchForWriter(addr, req);
      if reply.Some? {
        assert readers <= Losers(rec, req);
        Transfer(addr, req, readers);
        ClosedTwice(maps, addr, FetchedFrom(rec, req), readers);
      }
    }

    method ServWrRq(addr: nat, req: nat) returns (reply: Option<string>)
      requires Wired() && IsPage(addr) && req < |nodes| && RecordOk(addr) && ManagerFree(addr)
      requires CanClose(addr, req)
      modifies this`drops, nodes[0].pgTbl, Nodes()`access, Tables()`pageLocks
      ensures LockSets() == old(LockSets()) && nodes[0].pgTbl.infoLocks == old(nodes[0].pgTbl.infoLocks)
      ensures FetchTried(old(drops), FetchIsRemote(old(nodes[0].pgTbl.InfoAt(addr)), req, Wr), reply.None?)
      ensures WriteServed(old(AccessMaps()), old(nodes[0].pgTbl.info), addr, req, reply)
    {
      ghost var locks, infos := LockSets(), nodes[0].pgTbl.infoLocks;
      LockManager(addr);
      reply := ServeWriter(addr, req);
      assert addr in LockSets()[0];
      UnlockManager(addr);
      Relocked(locks, infos, addr);
    }

    // ---------- the request adapters ----------

    ghost predicate ReadReady(addr: nat, req: nat)
      reads Nodes(), Tables()
    {
      Wired() && IsPage(addr) && req < |nodes| && RecordOk(addr) && ManagerFree(addr) && CanLock(Owner(addr), addr)
    }

    ghost predicate WriteReady(addr: nat, req: nat)
      reads Nodes(), Tables()
    {
      Wired() && IsPage(addr) && req < |nodes| && RecordOk(addr) && ManagerFree(addr) && CanClose(addr, req)
    }

    /** After a lost fetch the same request can be served again. */
    lemma ReadReadyAgain(maps: seq<AccessMap>, info: map<nat, Info>, locks: seq<set<nat>>, addr: nat, req: nat)
      requires Wired() && IsPage(addr) && req < |nodes| == |maps| == |locks| && LockSets() == locks
      requires var rec := InfoIn(info, addr);
               NamesNodes(rec, |nodes|) && (rec.owner != 0 ==> addr !in locks[rec.owner])
      requires ReadServed(maps, info, addr, req, None) && addr !in locks[0] && addr !in nodes[0].pgTbl.infoLocks
      ensures ReadReady(addr, req)
    {
    }

    lemma WriteReadyAgain(maps: seq<AccessMap>, info: map<nat, Info>, locks: seq<set<nat>>, addr: nat, req: nat)
      requires Wired() && IsPage(addr) && req < |nodes| == |maps| == |locks| && LockSets() == locks
      requires var rec := InfoIn(info, addr);
               NamesNodes(rec, |nodes|) && forall i | i in Losers(rec, req) && i != 0 :: addr !in locks[i]
      requires WriteServed(maps, info, addr, req, None) && addr !in locks[0] && addr !in nodes[0].pgTbl.infoLocks
      ensures WriteReady(addr, req)
    {
      forall i | i in Losers(nodes[0].pgTbl.InfoAt(addr), req)
        ensures i < |nodes| && (i != 0 ==> addr !in LockSets()[i])
      {
        assert i in Losers(InfoIn(info, addr), req);
        assert LockSets()[i] == locks[i];
      }
    }

    /** Serves a read request again and again until its fetch goes through. */
    method ServeReadUntilDone(addr: nat, req: nat) returns (page: string)
      requires ReadReady(addr, req)
      modifies this`drops, nodes[0].pgTbl, Nodes()`access, Tables()`pageLocks
      ensures LockSets() == old(LockSets()) && nodes[0].pgTbl.infoLocks == old(nodes[0].pgTbl.infoLocks)
      ensures drops == AfterFetches(old(drops), FetchIsRemote(old(nodes[0].pgTbl.InfoAt(addr)), req, Rd))
      ensures ReadServed(old(AccessMaps()), old(nodes[0].pgTbl.info), addr, req, Some(page))
    {
      ghost var remote := FetchIsRemote(nodes[0].pgTbl.InfoAt(addr), req, Rd);
      ghost var maps, info, locks := AccessMaps(), nodes[0].pgTbl.info, LockSets();
      assert InfoIn(info, addr) == nodes[0].pgTbl.InfoAt(addr);
      var reply := ServRdRq(addr, req);
      while reply.None?
        invariant LockSets() == locks && nodes[0].pgTbl.infoLocks == old(nodes[0].pgTbl.infoLocks)
        invariant AfterFetches(old(drops), remote) == if reply.None? then AfterFetches(drops, remote) else drops
        invariant remote == FetchIsRemote(nodes[0].pgTbl.InfoAt(addr), req, Rd) || reply.Some?
        invariant ReadServed(maps, info, addr, req, reply)
        decreases reply.None?, |drops|
      {
        ReadReadyAgain(maps, info, locks, addr, req);
        reply := ServRdRq(addr, req);
      }
      page := reply.value;
    }

    /** A service after lost fetches changes what it would have changed at once. */
    lemma WriteServedAfterLoss(maps: seq<AccessMap>, info: map<nat, Info>, lost: map<nat, Info>, addr: nat, req: nat,
                               reply: Option<string>)
      requires 0 < |nodes| == |maps| && InfoIn(info, addr).owner < |nodes|
      requires lost == info[addr := Info(InfoIn(info, addr).copyset - {req}, InfoIn(info, addr).owner)]
      requires WriteServed(maps, lost, addr, req, reply)
      ensures WriteServed(maps, info, addr, req, reply)
    {
      assert Losers(InfoIn(lost, addr), req) == Losers(InfoIn(info, addr), req);
      assert InfoIn(lost, addr).copyset - {req} == InfoIn(info, addr).copyset - {req};
    }

    /** Serves a write request again and again until its fetch goes through. */
    method ServeWriteUntilDone(addr: nat, req: nat) returns (page: string)
      requires WriteReady(addr, req)
      modifies this`drops, nodes[0].pgTbl, Nodes()`access, Tables()`pageLocks
      ensures LockSets() == old(LockSets()) && nodes[0].pgTbl.infoLocks == old(nodes[0].pgTbl.infoLocks)
      ensures drops == AfterFetches(old(drops), FetchIsRemote(old(nodes[0].pgTbl.InfoAt(addr)), req, Wr))
      ensures WriteServed(old(AccessMaps()), old(nodes[0].pgTbl.info), addr, req, Some(page))
    {
      ghost var remote := FetchIsRemote(nodes[0].pgTbl.InfoAt(addr), req, Wr);
      ghost var maps, info, locks := AccessMaps(), nodes[0].pgTbl.info, LockSets();
      assert InfoIn(info, addr) == nodes[0].pgTbl.InfoAt(addr);
      var reply := ServWrRq(addr, req);
      while reply.None?
        invariant LockSets() == locks && nodes[0].pgTbl.infoLocks == old(nodes[0].pgTbl.infoLocks)
        invariant AfterFetches(old(drops), remote) == if reply.None? then AfterFetches(drops, remote) else drops
        invariant remote == FetchIsRemote(nodes[0].pgTbl.InfoAt(addr), req, Wr) || reply.Some?
        invariant WriteServed(maps, info, addr, req, reply)
        decreases reply.None?, |drops|
      {
        WriteReadyAgain(maps, info, locks, addr, req);
        ghost var lost := nodes[0].pgTbl.info;
        reply := ServWrRq(addr, req);
        WriteServedAfterLoss(maps, info, lost, addr, req, reply);
      }
      page := reply.value;
    }

    method ServRdRqAdapter(text: string) returns (r: Result<string>)
      requires TextToRequest(text).Ok? ==> ReadReady(TextToRequest(text).value.addr, TextToRequest(text).value.node)
      modifies this`drops, Nodes()`access, Tables()
      ensures TextToRequest(text).Err? ==> r == Err(TextToRequest(text).error) && drops == old(drops)
      ensures TextToRequest(text).Ok? ==>
                var rq := TextToRequest(text).value;
                && LockSets() == old(LockSets()) && nodes[0].pgTbl.infoLocks == old(nodes[0].pgTbl.infoLocks)
                && drops == AfterFetches(old(drops), FetchIsRemote(old(nodes[0].pgTbl.InfoAt(rq.addr)), rq.node, Rd))
                && r.Ok? && ReadServed(old(AccessMaps()), old(nodes[0].pgTbl.info), rq.addr, rq.node, Some(r.value))
    {
      var rq :- TextToRequest(text);
      var page := ServeReadUntilDone(rq.addr, rq.node);
      return Ok(page);
    }

    method ServWrRqAdapter(text: string) returns (r: Result<string>)
      requires TextToRequest(text).Ok? ==> WriteReady(TextToRequest(text).value.addr, TextToRequest(text).value.node)
      modifies this`drops, Nodes()`access, Tables()
      ensures TextToRequest(text).Err? ==> r == Err(TextToRequest(text).error) && drops == old(drops)
      ensures TextToRequest(text).Ok? ==>
                var rq := TextToRequest(text).value;
                && LockSets() == old(LockSets()) && nodes[0].pgTbl.infoLocks == old(nodes[0].pgTbl.infoLocks)
                && drops == AfterFetches(old(drops), FetchIsRemote(old(nodes[0].pgTbl.InfoAt(rq.addr)), rq.node, Wr))
                && r.Ok? && WriteServed(old(AccessMaps()), old(nodes[0].pgTbl.info), rq.addr, rq.node, Some(r.value))
    {
      var rq :- TextToRequest(text);
      var page := ServeWriteUntilDone(rq.addr, rq.node);
      return Ok(page);
    }

    // ---------- getting a page from the manager ----------

    /** A request of node i was made: lost if the script says so, and otherwise served until its fetch goes through. */
    ghost predicate RequestTried(was: seq<bool>, i: nat, remote: bool, lost: bool)
      reads this`drops
    {
      && (lost <==> i != 0 && LosesNext(was))
      && drops == if lost then AfterCall(was) else AfterRequest(was, i == 0, remote)
    }

    /** Node i's read request and its answer; None if the request was lost. */
    method RequestRead(i: nat, addr: nat) returns (text: Option<string>)
      requires ReadReady(addr, i)
      modifies this`drops, Nodes()`access, Tables()
      ensures LockSets() == old(LockSets()) && nodes[0].pgTbl.infoLocks == old(nodes[0].pgTbl.infoLocks)
      ensures RequestTried(old(drops), i, FetchIsRemote(old(nodes[0].pgTbl.InfoAt(addr)), i, Rd), text.None?)
      ensures text.None? ==> AccessMaps() == old(AccessMaps()) && nodes[0].pgTbl.info == old(nodes[0].pgTbl.info)
      ensures text.Some? ==> ReadServed(old(AccessMaps()), old(nodes[0].pgTbl.info), addr, i, text)
    {
      hide TextToRequest, RequestToText, PageToText;
      PageRequest(addr, i);
      if i != 0 {
        var lost := CallIsLost();
        if lost {
          return None;
        }
      }
      var page := ServRdRqAdapter(RequestToText(addr, i));
      return Some(page.value);
    }

    method RequestWrite(i: nat, addr: nat) returns (text: Option<string>)
      requires WriteReady(addr, i)
      modifies this`drops, Nodes()`access, Tables()
      ensures LockSets() == old(LockSets()) && nodes[0].pgTbl.infoLocks == old(nodes[0].pgTbl.infoLocks)
      ensures RequestTried(old(drops), i, FetchIsRemote(old(nodes[0].pgTbl.InfoAt(addr)), i, Wr), text.None?)
      ensures text.None? ==> AccessMaps() == old(AccessMaps()) && nodes[0].pgTbl.info == old(nodes[0].pgTbl.info)
      ensures text.Some? ==> WriteServed(old(AccessMaps()), old(nodes[0].pgTbl.info), addr, i, text)
    {
      hide TextToRequest, RequestToText, PageToText;
      PageRequest(addr, i);
      if i != 0 {
        var lost := CallIsLost();
        if lost {
          return None;
        }
      }
      var page := ServWrRqAdapter(RequestToText(addr, i));
      return Some(page.value);
    }

    /** The maps after node i has installed a readable copy. */
    ghost predicate ReadDone(maps: seq<AccessMap>, mems: seq<PageMap>, info: map<nat, Info>, addr: nat, i: nat)
      requires i < |nodes| == |maps| == |mems| && InfoIn(info, addr).owner < |nodes|
      reads Nodes(), Tables()
    {
      var rec := InfoIn(info, addr);
      && nodes[0].pgTbl.info == info[addr := Info(rec.copyset + {i}, rec.owner)]
      && AccessMaps() == ReadMaps(maps, addr, rec.owner, i)
      && MemMaps() == WithPage(mems, i, addr, PageIn(mems[rec.owner], addr))
    }

    method InstallReadAt(i: nat, addr: nat, text: string, ghost page: Page)
      requires Wired() && i < |nodes| && IsPage(addr) && text == PageToText(page)
      modifies Nodes()
      ensures AccessMaps() == WithAccess(old(AccessMaps()), i, addr, ReadOnly)
      ensures MemMaps() == WithPage(old(MemMaps()), i, addr, page)
    {
      nodes[i].InstallRead(addr, text, page);
    }

    method InstallWriteAt(i: nat, addr: nat, text: string, ghost page: Page)
      requires Wired() && i < |nodes| && IsPage(addr) && (text == PageToText(page) || text == "")
      modifies Nodes()
      ensures AccessMaps() == WithAccess(old(AccessMaps()), i, addr, ReadWrite)
      ensures MemMaps() == if text == "" then old(MemMaps()) else WithPage(old(MemMaps()), i, addr, page)
    {
      nodes[i].InstallWrite(addr, text, page);
    }

    /** Node i asks for the page and installs it read-only; true if the request was lost. */
    method GetRdPageFromMngr(i: nat, addr: nat) returns (failed: bool)
      requires ReadReady(addr, i)
      modifies this`drops, Nodes(), Tables()
      ensures LockSets() == old(LockSets()) && nodes[0].pgTbl.infoLocks == old(nodes[0].pgTbl.infoLocks)
      ensures RequestTried(old(drops), i, FetchIsRemote(old(nodes[0].pgTbl.InfoAt(addr)), i, Rd), failed)
      ensures failed ==> AccessMaps() == old(AccessMaps()) && MemMaps() == old(MemMaps()) &&
                         nodes[0].pgTbl.info == old(nodes[0].pgTbl.info)
      ensures !failed ==> ReadDone(old(AccessMaps()), old(MemMaps()), old(nodes[0].pgTbl.info), addr, i)
    {
      hide PageToText;
      ghost var mems, rec := MemMaps(), nodes[0].pgTbl.InfoAt(addr);
      ghost var page := PageIn(mems[rec.owner], addr);
      var text := RequestRead(i, addr);
      failed := text.None?;
      if !failed {
        assert MemMaps() == mems && nodes[rec.owner].PageAt(addr) == page;
        InstallReadAt(i, addr, text.value, page);
      }
    }

    /** Node i asks for the page and installs it writable; true if the request was lost. */
    method GetWrPageFromMngr(i: nat, addr: nat) returns (failed: bool)
      requires WriteReady(addr, i)
      modifies this`drops, Nodes(), Tables()
      ensures LockSets() == old(LockSets()) && nodes[0].pgTbl.infoLocks == old(nodes[0].pgTbl.infoLocks)
      ensures RequestTried(old(drops), i, FetchIsRemote(old(nodes[0].pgTbl.InfoAt(addr)), i, Wr), failed)
      ensures failed ==> AccessMaps() == old(AccessMaps()) && MemMaps() == old(MemMaps()) &&
                         nodes[0].pgTbl.info == old(nodes[0].pgTbl.info)
      ensures !failed ==>
                Written(old(AccessMaps()), old(MemMaps()), old(nodes[0].pgTbl.info), addr, i,
                        AccessMaps(), MemMaps(), nodes[0].pgTbl.info)
    {
      ghost var maps, mems, info := AccessMaps(), MemMaps(), nodes[0].pgTbl.info;
      ghost var rec := InfoIn(info, addr);
      ghost var page := PageIn(mems[rec.owner], addr);
      assert rec == nodes[0].pgTbl.InfoAt(addr);
      var text := RequestWrite(i, addr);
      failed := text.None?;
      if !failed {
        assert MemMaps() == mems && nodes[rec.owner].PageAt(addr) == page;
        assert |PageToText(page)| != 0;
        InstallWriteAt(i, addr, text.value, page);
      }
    }

    // ---------- fault handlers ----------

    /** No lock is held anywhere. */
    ghost predicate Idle()
      reads Nodes(), Tables()
    {
      Wired() && nodes[0].pgTbl.infoLocks == {} && forall i | 0 <= i < |nodes| :: LockSets()[i] == {}
    }

    ghost function View(addr: nat): State
      requires Wired()
      reads Nodes(), Tables()
    {
      ViewOf(AccessMaps(), MemMaps(), nodes[0].pgTbl.info, addr)
    }

    lemma FreshView(addr: nat)
      requires Wired() && Untouched()
      ensures View(addr) == Init(|nodes|) && Idle()
    {
      var v, w := View(addr), Init(|nodes|);
      assert forall i | 0 <= i < |nodes| :: Blank(nodes[i]);
      assert v.access == w.access && v.mem == w.mem && v.locked == w.locked && v.app == w.app;
    }

    /** All pages satisfy the protocol's invariant. */
    ghost predicate Coherent()
      requires Wired()
      reads Nodes(), Tables()
    {
      forall addr: nat :: Shape(View(addr)) && Inv(View(addr), true)
    }

    /** Node i faults on a page whose state satisfies the protocol's invariant. */
    ghost predicate Faulting(addr: nat, i: nat, k: Kind)
      reads Nodes(), Tables()
    {
      Wired() && i < |nodes| && IsPage(addr) && Shape(View(addr)) && Inv(View(addr), true) && Faults(View(addr), i, k)
    }

    /** Node i, and only node i, holds its page lock, unless it is node 0. */
    ghost predicate OnlyLockIs(addr: nat, i: nat)
      requires Wired()
      reads Nodes(), Tables()
    {
      nodes[0].pgTbl.infoLocks == {} &&
      forall j | 0 <= j < |nodes| :: LockSets()[j] == if j == i && i != 0 then {addr} else {}
    }

    lemma ReadyUnderLock(addr: nat, i: nat)
      requires Faulting(addr, i, Rd) && OnlyLockIs(addr, i)
      ensures ReadReady(addr, i)
    {
      assert NodeOk(View(addr), i, true);
      assert View(addr).access[i] == NoAccess;
      assert LockSets()[0] == {} && LockSets()[Owner(addr)] == if Owner(addr) == i != 0 then {addr} else {};
    }

    lemma WriteReadyUnderLock(addr: nat, i: nat)
      requires Faulting(addr, i, Wr) && OnlyLockIs(addr, i)
      ensures WriteReady(addr, i)
    {
      assert LockSets()[0] == {};
      forall j | j in Losers(nodes[0].pgTbl.InfoAt(addr), i)
        ensures j < |nodes| && (j != 0 ==> addr !in LockSets()[j])
      {
        assert LockSets()[j] == if j == i && i != 0 then {addr} else {};
      }
    }

    /** One round of a read fault: lock, ask, install, unlock; true if the request was lost. */
    method TryRead(i: nat, page: nat) returns (failed: bool)
      requires Idle() && Faulting(page, i, Rd)
      modifies this`drops, Nodes(), Tables()
      ensures Idle()
      ensures RequestTried(old(drops), i, FetchIsRemote(old(nodes[0].pgTbl.InfoAt(page)), i, Rd), failed)
      ensures failed ==> AccessMaps() == old(AccessMaps()) && MemMaps() == old(MemMaps()) &&
                         nodes[0].pgTbl.info == old(nodes[0].pgTbl.info)
      ensures !failed ==> ReadDone(old(AccessMaps()), old(MemMaps()), old(nodes[0].pgTbl.info), page, i)
    {
      LockForRead(i, page);
      ghost var locks := LockSets();
      failed := GetRdPageFromMngr(i, page);
      assert forall j | 0 <= j < |nodes| :: LockSets()[j] == locks[j];
      UnlockOwn(i, page);
    }

    /** The retry loop of a read fault on an aligned page. */
    method HandleRead(i: nat, page: nat)
      requires Idle() && Faulting(page, i, Rd)
      modifies this`drops, Nodes(), Tables()
      ensures Idle()
      ensures drops == AfterFault(old(drops), i == 0, FetchIsRemote(old(nodes[0].pgTbl.InfoAt(page)), i, Rd))
      ensures ReadDone(old(AccessMaps()), old(MemMaps()), old(nodes[0].pgTbl.info), page, i)
    {
      ghost var maps, mems, info := AccessMaps(), MemMaps(), nodes[0].pgTbl.info;
      ghost var remote := FetchIsRemote(nodes[0].pgTbl.InfoAt(page), i, Rd);
      var failed := true;
      while failed
        invariant Idle()
        invariant AfterFault(old(drops), i == 0, remote) == if failed then AfterFault(drops, i == 0, remote) else drops
        invariant failed ==> AccessMaps() == maps && MemMaps() == mems && nodes[0].pgTbl.info == info
        invariant !failed ==> ReadDone(maps, mems, info, page, i)
        decreases failed, |drops|
      {
        failed := TryRead(i, page);
      }
    }

    /** One round of a write fault: lock, ask, install, unlock; true if the request was lost. */
    method TryWrite(i: nat, page: nat) returns (failed: bool)
      requires Idle() && Faulting(page, i, Wr)
      modifies this`drops, Nodes(), Tables()
      ensures Idle()
      ensures RequestTried(old(drops), i, FetchIsRemote(old(nodes[0].pgTbl.InfoAt(page)), i, Wr), failed)
      ensures failed ==> AccessMaps() == old(AccessMaps()) && MemMaps() == old(MemMaps()) &&
                         nodes[0].pgTbl.info == old(nodes[0].pgTbl.info)
      ensures !failed ==> Written(old(AccessMaps()), old(MemMaps()), old(nodes[0].pgTbl.info), page, i,
                      AccessMaps(), MemMaps(), nodes[0].pgTbl.info)
    {
      LockForWrite(i, page);
      ghost var locks := LockSets();
      failed := GetWrPageFromMngr(i, page);
      assert forall j | 0 <= j < |nodes| :: LockSets()[j] == locks[j];
      UnlockOwn(i, page);
    }

    /** The retry loop of a write fault on an aligned page. */
    method HandleWrite(i: nat, page: nat)
      requires Idle() && Faulting(page, i, Wr)
      modifies this`drops, Nodes(), Tables()
      ensures Idle()
      ensures drops == AfterFault(old(drops), i == 0, FetchIsRemote(old(nodes[0].pgTbl.InfoAt(page)), i, Wr))
      ensures Written(old(AccessMaps()), old(MemMaps()), old(nodes[0].pgTbl.info), page, i,
                      AccessMaps(), MemMaps(), nodes[0].pgTbl.info)
    {
      ghost var maps, mems, info := AccessMaps(), MemMaps(), nodes[0].pgTbl.info;
      ghost var remote := FetchIsRemote(nodes[0].pgTbl.InfoAt(page), i, Wr);
      var failed := true;
      while failed
        invariant Idle()
        invariant AfterFault(old(drops), i == 0, remote) == if failed then AfterFault(drops, i == 0, remote) else drops
        invariant failed ==> AccessMaps() == maps && MemMaps() == mems && nodes[0].pgTbl.info == info
        invariant !failed ==> Written(maps, mems, info, page, i, AccessMaps(), MemMaps(), nodes[0].pgTbl.info)
        decreases failed, |drops|
      {
        failed := TryWrite(i, page);
      }
    }

    method LockOwn(i: nat, page: nat)
      requires Idle() && i < |nodes|
      modifies Tables()`pageLocks
      ensures OnlyLockIs(page, i)
      ensures AccessMaps() == old(AccessMaps()) && MemMaps() == old(MemMaps())
      ensures nodes[0].pgTbl.info == old(nodes[0].pgTbl.info)
    {
      if i != 0 {
        assert LockSets()[i] == {};
        nodes[i].LockPage(page);
      }
    }

    method LockForRead(i: nat, page: nat)
      requires Idle() && Faulting(page, i, Rd)
      modifies Tables()`pageLocks
      ensures OnlyLockIs(page, i) && ReadReady(page, i)
      ensures AccessMaps() == old(AccessMaps()) && MemMaps() == old(MemMaps())
      ensures nodes[0].pgTbl.info == old(nodes[0].pgTbl.info)
    {
      LockOwn(i, page);
      ReadyUnderLock(page, i);
    }

    method LockForWrite(i: nat, page: nat)
      requires Idle() && Faulting(page, i, Wr)
      modifies Tables()`pageLocks
      ensures OnlyLockIs(page, i) && WriteReady(page, i)
      ensures AccessMaps() == old(AccessMaps()) && MemMaps() == old(MemMaps())
      ensures nodes[0].pgTbl.info == old(nodes[0].pgTbl.info)
    {
      LockOwn(i, page);
      WriteReadyUnderLock(page, i);
    }

    method UnlockOwn(i: nat, page: nat)
      requires Wired() && i < |nodes| && OnlyLockIs(page, i)
      modifies Tables()`pageLocks
      ensures Idle()
      ensures AccessMaps() == old(AccessMaps()) && MemMaps() == old(MemMaps())
      ensures nodes[0].pgTbl.info == old(nodes[0].pgTbl.info)
    {
      if i != 0 {
        assert LockSets()[i] == {page};
        nodes[i].UnlockPage(page);
      }
    }

    /** The fault handler: whatever gets lost on the way, the outcome is the one atomic fault. */
    method FaultHandler(i: nat, addr: nat, k: Kind)
      requires Idle() && Faulting(PageAlign(addr), i, k)
      modifies this`drops, Nodes(), Tables()
      ensures Idle()
      ensures drops == AfterFault(old(drops), i == 0, FetchIsRemote(old(nodes[0].pgTbl.InfoAt(PageAlign(addr))), i, k))
      ensures forall b: nat ::
                View(b) == if b == PageAlign(addr) then AtomicFault(old(View(PageAlign(addr))), i, k) else old(View(b))
    {
      var page := PageAlign(addr);
      ghost var maps, mems, info := AccessMaps(), MemMaps(), nodes[0].pgTbl.info;
      if k.Rd? {
        HandleRead(i, page);
        forall b: nat { ReadView(maps, mems, info, page, i, b); }
      } else {
        HandleWrite(i, page);
        forall b: nat { WriteView(maps, mems, info, page, i, b, AccessMaps(), MemMaps(), nodes[0].pgTbl.info); }
      }
    }

    // ---------- what the applications do ----------

    /** One fault, seen through the protocol: the contents and the invariant of every page are kept. */
    method Resolve(i: nat, addr: nat, k: Kind)
      requires Idle() && Coherent() && i < |nodes| && IsPage(addr) && Faults(View(addr), i, k)
      modifies this`drops, Nodes(), Tables()
      ensures Idle() && Coherent()
      ensures forall b: nat :: Current(View(b)) == old(Current(View(b)))
      ensures forall b: nat ::
                View(b) == if b == addr then AtomicFault(old(View(addr)), i, k) else old(View(b))
    {
      hide Inv, Reaches, AtomicFault;
      UndisturbedFault(View(addr), i, k, true);
      FaultHandler(i, addr, k);
    }

    method AppLoad(i: nat, addr: nat, off: nat) returns (value: Word)
      requires Idle() && Coherent() && i < |nodes| && IsPage(addr) && off < CELLS
      modifies this`drops, Nodes(), Tables()
      ensures Idle() && Coherent()
      ensures forall b: nat :: Current(View(b)) == old(Current(View(b)))
      ensures value == old(Current(View(addr)))[off]
      ensures forall b: nat :: View(b) == if b == addr then AfterLoad(old(View(addr)), i) else old(View(b))
    {
      if nodes[i].AccessAt(addr).NoAccess? {
        Resolve(i, addr, Rd);
      }
      assert NodeOk(View(addr), i, true);
      value := nodes[i].PageAt(addr)[off];
    }

    method AppStore(i: nat, addr: nat, off: nat, value: Word)
      requires Idle() && Coherent() && i < |nodes| && IsPage(addr) && off < CELLS
      modifies this`drops, Nodes(), Tables()
      ensures Idle() && Coherent()
      ensures forall b: nat ::
                Current(View(b)) == if b == addr then old(Current(View(addr)))[off := value] else old(Current(View(b)))
      ensures forall b: nat ::
                View(b) == if b == addr then AfterStore(old(View(addr)), i, off, value) else old(View(b))
    {
      if !nodes[i].AccessAt(addr).ReadWrite? {
        Resolve(i, addr, Wr);
      }
      WritePage(i, addr, off, value);
    }

    method WritePage(i: nat, addr: nat, off: nat, value: Word)
      requires Idle() && Coherent() && i < |nodes| && IsPage(addr) && off < CELLS
      requires View(addr).access[i].ReadWrite?
      modifies Nodes()
      ensures Idle() && Coherent()
      ensures forall b: nat ::
                Current(View(b)) == if b == addr then old(Current(View(addr)))[off := value] else old(Current(View(b)))
      ensures forall b: nat ::
                View(b) == if b == addr then WithWord(old(View(addr)), i, off, value) else old(View(b))
    {
      ghost var maps, mems, info, locks := AccessMaps(), MemMaps(), nodes[0].pgTbl.info, LockSets();
      assert forall b: nat :: Shape(ViewOf(maps, mems, info, b)) && Inv(ViewOf(maps, mems, info, b), true) by {
        assert forall b: nat :: View(b) == ViewOf(maps, mems, info, b);
      }
      var page := nodes[i].PageAt(addr);
      nodes[i].mem := nodes[i].mem[addr := page[off := value]];
      assert AccessMaps() == maps && MemMaps() == WithPage(mems, i, addr, page[off := value]);
      assert LockSets() == locks;
      forall b: nat
        ensures Shape(View(b)) && Inv(View(b), true)
        ensures Current(View(b)) == if b == addr then old(Current(View(addr)))[off := value] else old(Current(View(b)))
        ensures View(b) == if b == addr then WithWord(old(View(addr)), i, off, value) else old(View(b))
      {
        StoreView(maps, mems, info, addr, i, off, value, b);
      }
    }
  }
}
