/**
 * The handlers as the nodes run them, one fault at a time: objects with a page table each, requests
 * and pages as text, and remote calls that may fail without effect and are then retried.
 */
module IvyNodes {
  import opened Types
  import opened PageProtocol
  import opened PageText
  import opened RequestText

  /** What the manager records about a page. */
  datatype Info = Info(copyset: set<nat>, owner: nat)

  /** The lock maps hold the addresses whose mutex is taken. */
  class IvyPageTable {
    var pageLocks: set<nat>
    var infoLocks: set<nat>
    var info: map<nat, Info>

    constructor ()
      ensures pageLocks == {} && infoLocks == {} && info == map[]
    {
      pageLocks, infoLocks, info := {}, {}, map[];
    }

    /** An entry that was never set is the default one: owned by node 0, read by nobody. */
    function InfoAt(addr: nat): Info
      reads this`info
    {
      if addr in info then info[addr] else Info({}, 0)
    }

    method Insert(addr: nat, node: nat)
      modifies this`info
      ensures info == old(info)[addr := Info(old(InfoAt(addr)).copyset + {node}, old(InfoAt(addr)).owner)]
    {
      info := info[addr := InfoAt(addr).(copyset := InfoAt(addr).copyset + {node})];
    }

    method Erase(addr: nat, node: nat)
      modifies this`info
      ensures info == old(info)[addr := Info(old(InfoAt(addr)).copyset - {node}, old(InfoAt(addr)).owner)]
    {
      info := info[addr := InfoAt(addr).(copyset := InfoAt(addr).copyset - {node})];
    }

    method SetOwner(addr: nat, node: nat)
      modifies this`info
      ensures info == old(info)[addr := Info({}, node)]
    {
      info := info[addr := InfoAt(addr).(copyset := {})];
      info := info[addr := InfoAt(addr).(owner := node)];
    }
  }

  class Ivy {
    const id: nat
    const pgTbl: IvyPageTable
    var access: map<nat, Access>
    var mem: map<nat, Page>

    constructor (id: nat)
      ensures this.id == id && access == map[] && mem == map[]
      ensures fresh(pgTbl) && pgTbl.pageLocks == {} && pgTbl.infoLocks == {} && pgTbl.info == map[]
    {
      this.id := id;
      pgTbl := new IvyPageTable();
      access, mem := map[], map[];
    }

    function AccessAt(addr: nat): Access
      reads this`access
    {
      if addr in access then access[addr] else NoAccess
    }

    function PageAt(addr: nat): Page
      reads this`mem
    {
      if addr in mem then mem[addr] else ZeroPage()
    }

    method SetAccess(addr: nat, to: Access)
      modifies this`access
      ensures access == old(access)[PageAlign(addr) := to]
    {
      access := access[PageAlign(addr) := to];
    }

    /** The text of this node's page; reading it needs the page open. */
    method ReadPage(addr: nat) returns (text: string)
      requires !AccessAt(PageAlign(addr)).NoAccess?
      ensures text == PageToText(PageAt(PageAlign(addr)))
    {
      var bytes := MemoryBytes(PageAt(PageAlign(addr)));
      var arr := new Byte[|bytes|](k requires 0 <= k < |bytes| => bytes[k]);
      assert arr[..] == bytes;
      text := ToHex(arr, arr.Length);
      assert arr[..arr.Length] == bytes;
    }

    /** Copies a received page into memory, which needs the page open for writing. */
    method CopyPage(addr: nat, text: string)
      requires AccessAt(PageAlign(addr)).ReadWrite?
      requires |text| == 16 * CELLS && TextToPage(text).Ok?
      modifies this`mem
      ensures mem == old(mem)[PageAlign(addr) := TextToPage(text).value]
    {
      var r := FromHex(text);
      var bytes := r.value[..8 * CELLS];
      mem := mem[PageAlign(addr) := MemoryWords(bytes)];
    }

    /** Installs the page of a read reply: open, copy, and close to read-only. */
    method InstallRead(addr: nat, text: string, ghost page: Page)
      requires addr % PAGE_BYTES == 0 && text == PageToText(page)
      modifies this`access, this`mem
      ensures access == old(access)[addr := ReadOnly] && mem == old(mem)[addr := page]
    {
      hide PageToText, TextToPage;
      PageTextRoundTrip(page);
      SetAccess(addr, ReadWrite);
      CopyPage(addr, text);
      SetAccess(addr, ReadOnly);
    }

    /** Installs a write reply; an empty one leaves the memory as it is. */
    method InstallWrite(addr: nat, text: string, ghost page: Page)
      requires addr % PAGE_BYTES == 0 && (text == PageToText(page) || text == "")
      modifies this`access, this`mem
      ensures access == old(access)[addr := ReadWrite]
      ensures mem == if text == "" then old(mem) else old(mem)[addr := page]
    {
      hide PageToText, TextToPage;
      SetAccess(addr, ReadWrite);
      if |text| == 2 * PAGE_BYTES {
        PageTextRoundTrip(page);
        CopyPage(addr, text);
      }
    }

    method LockPage(addr: nat)
      requires addr !in pgTbl.pageLocks
      modifies pgTbl`pageLocks
      ensures pgTbl.pageLocks == old(pgTbl.pageLocks) + {addr}
    {
      pgTbl.pageLocks := pgTbl.pageLocks + {addr};
    }

    method UnlockPage(addr: nat)
      requires addr in pgTbl.pageLocks
      modifies pgTbl`pageLocks
      ensures pgTbl.pageLocks == old(pgTbl.pageLocks) - {addr}
    {
      pgTbl.pageLocks := pgTbl.pageLocks - {addr};
    }

    /** Sends this node's page and leaves it with the given access; needs the page lock off node 0. */
    method FetchPg(addr: nat, to: Access) returns (text: string)
      requires addr % PAGE_BYTES == 0 && (id != 0 ==> addr !in pgTbl.pageLocks)
      modifies this`access, pgTbl`pageLocks
      ensures text == PageToText(PageAt(addr))
      ensures access == old(access)[addr := to]
      ensures pgTbl.pageLocks == old(pgTbl.pageLocks)
    {
      if id != 0 {
        LockPage(addr);
      }
      SetAccess(addr, ReadOnly);
      text := ReadPage(addr);
      SetAccess(addr, to);
      if id != 0 {
        UnlockPage(addr);
      }
    }

    method FetchPgAdapter(text: string) returns (r: Result<string>)
      requires TextToFetch(text).Ok? ==>
                 var f := TextToFetch(text).value;
                 f.addr % PAGE_BYTES == 0 && (id != 0 ==> f.addr !in pgTbl.pageLocks)
      modifies this`access, pgTbl`pageLocks
      ensures pgTbl.pageLocks == old(pgTbl.pageLocks)
      ensures TextToFetch(text).Err? ==> r == Err(TextToFetch(text).error) && access == old(access)
      ensures TextToFetch(text).Ok? ==>
                var f := TextToFetch(text).value;
                r == Ok(PageToText(PageAt(f.addr))) && access == old(access)[f.addr := f.access]
    {
      var f :- TextToFetch(text);
      var page := FetchPg(f.addr, f.access);
      return Ok(page);
    }

    method InvalidateAdapter(text: string) returns (r: Result<bool>)
      requires TextToInvalidation(text).Ok? && id != 0 ==> TextToInvalidation(text).value !in pgTbl.pageLocks
      modifies this`access, pgTbl`pageLocks
      ensures pgTbl.pageLocks == old(pgTbl.pageLocks)
      ensures TextToInvalidation(text).Err? ==> r == Err(TextToInvalidation(text).error) && access == old(access)
      ensures TextToInvalidation(text).Ok? ==>
                r == Ok(true) && access == old(access)[TextToInvalidation(text).value := NoAccess]
    {
      var addr :- TextToInvalidation(text);
      if id != 0 {
        LockPage(addr);
      }
      SetAccess(addr, NoAccess);
      if id != 0 {
        UnlockPage(addr);
      }
      return Ok(true);
    }
  }
}
