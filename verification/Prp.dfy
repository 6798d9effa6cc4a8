/** PRP1, PRP2 and the PRP list, as the driver builds them and as the controller reads
  * them (NVMe 1.4, section 4.3), for 4096-byte pages. */
module Prp {
  import opened Common
  import opened FanOut

  /** Bytes from a to the end of its page. */
  function Room(a: nat): (r: nat)
    ensures 1 <= r <= 4096
  {
    4096 - a % 4096
  }

  // ---------- what the controller reads ----------

  /** The byte addresses of left bytes, walking the page entries of e from entry k: each
    * is followed to the end of its page. */
  function Walk(e: seq<nat>, left: nat): seq<nat>
    decreases |e|
  {
    if e == [] || left == 0 then []
    else
      var n := Least(left, Room(e[0]));
      Range(e[0], n) + Walk(e[1..], left - n)
  }

  /** A command's data: PRP2 is unused, a second page, or the list's address, depending
    * on the length alone.  Memory at listAt holds list. */
  function Controller(prp1: nat, prp2: nat, listAt: nat, list: seq<nat>, total: nat): seq<nat> {
    var room := Room(prp1);
    if total <= room then Range(prp1, total)
    else if total <= room + 4096 then Range(prp1, room) + Range(prp2, total - room)
    else Range(prp1, room) + (if prp2 == listAt then Walk(list, total - room) else [])
  }

  // ---------- what the driver writes ----------

  /** The pages of one fragment, the first with its offset. */
  function Pages(addr: nat, len: nat): (r: seq<nat>)
    ensures r == [] <==> len == 0
    ensures len > 0 ==> r[0] == addr
    decreases len
  {
    if len == 0 then []
    else
      var n := Least(len, Room(addr));
      [addr] + Pages(addr + n, len - n)
  }

  function AllPages(sg: seq<Frag>): seq<nat> {
    if sg == [] then [] else Pages(sg[0].addr, sg[0].len) + AllPages(sg[1..])
  }

  /** No entry but the first starts inside a page: what the builder checks. */
  predicate StartsAligned(sg: seq<Frag>) {
    forall i :: 0 < i < |sg| ==> sg[i].addr % 4096 == 0
  }

  /** No entry but the last ends inside a page: what PRPs need. */
  predicate EndsAligned(sg: seq<Frag>) {
    forall i :: 0 <= i < |sg| - 1 ==> (sg[i].addr + sg[i].len) % 4096 == 0
  }

  predicate NonEmpty(sg: seq<Frag>) {
    forall i :: 0 <= i < |sg| ==> sg[i].len > 0
  }

  // ---------- page lists ----------

  lemma {:induction false} FlattenCons(f: Frag, rest: seq<Frag>)
    ensures Flatten([f] + rest) == Range(f.addr, f.len) + Flatten(rest)
    decreases |rest|
  {
    var all := [f] + rest;
    if rest == [] {
      assert all == [] + [f];
      FlattenSnoc([], f);
    } else {
      var init, last := rest[..|rest| - 1], rest[|rest| - 1];
      FlattenCons(f, init);
      assert all[..|all| - 1] == [f] + init;
    }
  }

  lemma WalkStep(a: nat, more: seq<nat>, left: nat)
    requires left > 0
    ensures var n := Least(left, Room(a)); Walk([a] + more, left) == Range(a, n) + Walk(more, left - n)
  {
    assert ([a] + more)[1..] == more;
  }

  lemma PagesStep(addr: nat, len: nat, rest: seq<nat>)
    requires len > 0
    ensures var n := Least(len, Room(addr));
      Pages(addr, len) + rest == [addr] + (Pages(addr + n, len - n) + rest)
  {
  }

  /** A fragment within one page that ends with it fills the rest of the page. */
  lemma EndIsRoom(addr: nat, len: nat)
    requires 0 < len <= Room(addr) && (addr + len) % 4096 == 0
    ensures len == Room(addr)
  {
  }

  lemma JoinRange(addr: nat, n: nat, m: nat, len: nat, w0: seq<nat>, w1: seq<nat>, w2: seq<nat>)
    requires n + m == len && w0 == Range(addr, n) + w1 && w1 == Range(addr + n, m) + w2
    ensures w0 == Range(addr, len) + w2
  {
    RangeSplit(addr, n, m);
  }

  lemma WalkPage(addr: nat, len: nat, n: nat, rest: seq<nat>, tail: nat)
    requires len > 0 && n == Least(len, Room(addr)) && (tail == 0 || n < len || n == Room(addr))
    ensures Walk(Pages(addr, len) + rest, len + tail)
         == Range(addr, n) + Walk(Pages(addr + n, len - n) + rest, len - n + tail)
  {
    PagesStep(addr, len, rest);
    WalkHead(addr, Pages(addr + n, len - n) + rest, len + tail, n);
  }

  lemma WalkHead(addr: nat, more: seq<nat>, left: nat, n: nat)
    requires left > 0 && n == Least(left, Room(addr))
    ensures Walk([addr] + more, left) == Range(addr, n) + Walk(more, left - n)
  {
    WalkStep(addr, more, left);
  }

  /** Walking the pages of a fragment that ends with its page, or ends the transfer,
    * reads exactly the fragment. */
  lemma WalkFragment(addr: nat, len: nat, rest: seq<nat>, tail: nat)
    requires tail == 0 || (addr + len) % 4096 == 0
    ensures Walk(Pages(addr, len) + rest, len + tail) == Range(addr, len) + Walk(rest, tail)
  {
    WalkUpTo(addr, len, addr + len, rest, tail);
  }

  predicate EndsPage(end: nat) {
    end % 4096 == 0
  }

  lemma {:induction false} WalkUpTo(addr: nat, len: nat, end: nat, rest: seq<nat>, tail: nat)
    requires end == addr + len && (tail == 0 || EndsPage(end))
    ensures Walk(Pages(addr, len) + rest, len + tail) == Range(addr, len) + Walk(rest, tail)
    decreases len
  {
    if len == 0 {
      assert Pages(addr, len) + rest == rest;
      assert Range(addr, len) + Walk(rest, tail) == Walk(rest, tail);
    } else {
      var n, m := FirstPage(addr, len, end, tail);
      WalkPage(addr, len, n, rest, tail);
      WalkUpTo(addr + n, m, end, rest, tail);
      JoinRange(addr, n, m, len, Walk(Pages(addr, len) + rest, len + tail),
                Walk(Pages(addr + n, len - n) + rest, len - n + tail), Walk(rest, tail));
    }
  }

  /** What of a fragment the first page takes, and what is left. */
  lemma FirstPage(addr: nat, len: nat, end: nat, tail: nat) returns (n: nat, m: nat)
    requires len > 0 && end == addr + len && (tail == 0 || EndsPage(end))
    ensures n == Least(len, Room(addr)) && 0 < n && m == len - n
    ensures tail == 0 || n < len || n == Room(addr)
  {
    n := Least(len, Room(addr));
    m := len - n;
    if n == len && tail > 0 { EndIsRoom(addr, len); }
  }

  /** After a fragment that ends inside a page the controller reads on in that page. */
  lemma {:induction false} WalkRunsOn(addr: nat, len: nat, rest: seq<nat>, tail: nat)
    requires 0 < len && 0 < tail && (addr + len) % 4096 != 0
    ensures var w := Walk(Pages(addr, len) + rest, len + tail); |w| > len && w[len] == addr + len
    decreases len
  {
    var n := Least(len, Room(addr));
    if n < len {
      WalkPage(addr, len, n, rest, tail);
      WalkRunsOn(addr + n, len - n, rest, tail);
      AtOffset(Range(addr, n), Walk(Pages(addr + n, len - n) + rest, len - n + tail), n, len);
    } else {
      InsideIsLess(addr, len);
      PagesStep(addr, len, rest);
      WalkStep(addr, Pages(addr + n, len - n) + rest, len + tail);
    }
  }

  lemma AtOffset(a: seq<nat>, b: seq<nat>, n: nat, i: nat)
    requires |a| == n <= i && i - n < |b|
    ensures (a + b)[i] == b[i - n]
  {
  }

  lemma InsideIsLess(addr: nat, len: nat)
    requires 0 < len <= Room(addr) && (addr + len) % 4096 != 0
    ensures len < Room(addr)
  {
  }

  /** Total bytes of a scatter list. */
  function Bytes(sg: seq<Frag>): nat {
    |Flatten(sg)|
  }

  /** The controller's walk over the driver's pages reads the scatter list if and only if
    * every inner boundary is a page boundary. */
  lemma {:induction false} WalkIff(sg: seq<Frag>)
    requires NonEmpty(sg) && StartsAligned(sg)
    ensures Walk(AllPages(sg), Bytes(sg)) == Flatten(sg) <==> EndsAligned(sg)
    decreases |sg|
  {
    if sg != [] {
      var f, rest := sg[0], sg[1..];
      StartsOfRest(sg);
      assert sg == [f] + rest;
      if rest == [] || (f.addr + f.len) % 4096 == 0 {
        WalkIff(rest);
        EndsOfRest(sg);
        WalkFirst(f, rest);
      } else {
        WalkStops(f, rest);
        assert !EndsAligned(sg);
      }
    }
  }

  lemma AllPagesCons(f: Frag, rest: seq<Frag>)
    ensures AllPages([f] + rest) == Pages(f.addr, f.len) + AllPages(rest)
  {
    assert ([f] + rest)[1..] == rest;
  }

  /** A first entry that ends with its page is read whole, and the rest after it. */
  lemma WalkFirst(f: Frag, rest: seq<Frag>)
    requires rest == [] || (f.addr + f.len) % 4096 == 0
    ensures Walk(AllPages([f] + rest), Bytes([f] + rest)) == Flatten([f] + rest)
       <==> Walk(AllPages(rest), Bytes(rest)) == Flatten(rest)
  {
    AllPagesCons(f, rest);
    FlattenCons(f, rest);
    WalkFirstPages(f, AllPages(rest), Bytes(rest));
    SplitEqual(Walk(AllPages([f] + rest), Bytes([f] + rest)), Flatten([f] + rest), Range(f.addr, f.len),
               Walk(AllPages(rest), Bytes(rest)), Flatten(rest));
  }

  lemma SplitEqual(x: seq<nat>, y: seq<nat>, a: seq<nat>, b: seq<nat>, c: seq<nat>)
    requires x == a + b && y == a + c
    ensures x == y <==> b == c
  {
    SameTail(a, b, c);
  }

  lemma WalkFirstPages(f: Frag, rest: seq<nat>, tail: nat)
    requires tail == 0 || (f.addr + f.len) % 4096 == 0
    ensures Walk(Pages(f.addr, f.len) + rest, f.len + tail) == Range(f.addr, f.len) + Walk(rest, tail)
  {
    WalkFragment(f.addr, f.len, rest, tail);
  }

  lemma WalkStops(f: Frag, rest: seq<Frag>)
    requires rest != [] && NonEmpty([f] + rest) && (f.addr + f.len) % 4096 != 0 && rest[0].addr % 4096 == 0
    ensures Walk(AllPages([f] + rest), Bytes([f] + rest)) != Flatten([f] + rest)
  {
    StartsRest(f, rest);
    SecondByte(f, rest);
    RunsOnFirst(f, rest);
    assert rest[0].addr != f.addr + f.len;
  }

  lemma RunsOnFirst(f: Frag, rest: seq<Frag>)
    requires f.len > 0 && Bytes(rest) > 0 && (f.addr + f.len) % 4096 != 0
    ensures var w := Walk(AllPages([f] + rest), Bytes([f] + rest)); |w| > f.len && w[f.len] == f.addr + f.len
  {
    AllPagesCons(f, rest);
    FlattenCons(f, rest);
    WalkRunsOn(f.addr, f.len, AllPages(rest), Bytes(rest));
  }

  lemma SecondByte(f: Frag, rest: seq<Frag>)
    requires rest != [] && NonEmpty(rest)
    ensures Bytes(rest) > 0 && |Flatten([f] + rest)| > f.len && Flatten([f] + rest)[f.len] == rest[0].addr
  {
    FlattenCons(f, rest);
    RestStarts(rest);
    SecondStarts(f, Flatten(rest));
  }

  lemma StartsRest(f: Frag, rest: seq<Frag>)
    requires NonEmpty([f] + rest)
    ensures f.len > 0 && NonEmpty(rest)
  {
    assert ([f] + rest)[0] == f;
    forall i | 0 <= i < |rest| ensures rest[i].len > 0 { assert ([f] + rest)[i + 1] == rest[i]; }
  }

  lemma SecondStarts(f: Frag, rest: seq<nat>)
    requires rest != []
    ensures (Range(f.addr, f.len) + rest)[f.len] == rest[0]
  {
  }

  lemma StartsOfRest(sg: seq<Frag>)
    requires sg != [] && NonEmpty(sg) && StartsAligned(sg)
    ensures NonEmpty(sg[1..]) && StartsAligned(sg[1..])
    ensures |sg| > 1 ==> sg[1].addr % 4096 == 0
  {
  }

  lemma EndsOfRest(sg: seq<Frag>)
    requires sg != [] && (|sg| == 1 || (sg[0].addr + sg[0].len) % 4096 == 0)
    ensures EndsAligned(sg) <==> EndsAligned(sg[1..])
  {
    if EndsAligned(sg[1..]) {
      forall i | 0 <= i < |sg| - 1 ensures (sg[i].addr + sg[i].len) % 4096 == 0 {
        if i > 0 { assert sg[i] == sg[1..][i - 1]; }
      }
    }
    if EndsAligned(sg) {
      forall i | 0 <= i < |sg[1..]| - 1 ensures (sg[1..][i].addr + sg[1..][i].len) % 4096 == 0 {
        assert sg[1..][i] == sg[i + 1];
      }
    }
  }

  /** The first byte of a scatter list is where its first entry starts. */
  lemma RestStarts(sg: seq<Frag>)
    requires sg != [] && NonEmpty(sg)
    ensures Flatten(sg) != [] && Flatten(sg)[0] == sg[0].addr
  {
    assert sg == [sg[0]] + sg[1..];
    FlattenCons(sg[0], sg[1..]);
  }

  lemma SameTail(a: seq<nat>, b: seq<nat>, c: seq<nat>)
    ensures a + b == a + c <==> b == c
  {
    if a + b == a + c {
      assert b == (a + b)[|a|..] && c == (a + c)[|a|..];
    }
  }

  // ---------- PRP1 and PRP2 ----------

  /** What build_prp leaves in the command and the list buffer. */
  datatype Prps = Prps(prp1: nat, prp2: nat, list: seq<nat>) | Unexpressible

  /** The command for a list of pages: the second page in PRP2, or the list's address. */
  function Encode(pages: seq<nat>, listAt: nat): Prps
    requires pages != []
  {
    Prps(pages[0], if |pages| == 1 then 0 else if |pages| == 2 then pages[1] else listAt, pages[1..])
  }

  /** Reading the command is walking the pages, unless the length says that PRP2 is a
    * page while the driver left the list's address there. */
  lemma ControllerWalks(pages: seq<nat>, listAt: nat, total: nat)
    requires pages != [] && (total > Room(pages[0]) ==> |pages| >= 2)
    requires total > Room(pages[0]) + 4096 ==> |pages| >= 3
    requires total > Room(pages[0]) ==> pages[1] % 4096 == 0
    requires !(Room(pages[0]) < total <= Room(pages[0]) + 4096 && |pages| >= 3)
    ensures var p := Encode(pages, listAt);
      Controller(p.prp1, p.prp2, listAt, p.list, total) == Walk(pages, total)
  {
    var room := Room(pages[0]);
    assert pages == [pages[0]] + pages[1..];
    if total == 0 {
      assert Range(pages[0], 0) == [];
    } else {
      WalkStep(pages[0], pages[1..], total);
      if total <= room {
        assert Walk(pages[1..], 0) == [];
      } else if total <= room + 4096 {
        assert pages[1..] == [pages[1]] + [];
        WalkStep(pages[1], [], total - room);
        assert Walk([], total - room - Least(total - room, Room(pages[1]))) == [];
      }
    }
  }

  // ---------- counting pages ----------

  /** How many pages a fragment takes; every page but the first starts at offset 0. */
  lemma {:induction false} PagesCount(addr: nat, len: nat)
    requires len > 0
    ensures var k := |Pages(addr, len)|;
      len <= Room(addr) + 4096 * (k - 1) && (k >= 2 ==> len > Room(addr) + 4096 * (k - 2))
    ensures forall j :: 0 < j < |Pages(addr, len)| ==> Pages(addr, len)[j] % 4096 == 0
    decreases len
  {
    if len > Room(addr) {
      PageEnd(addr);
      PagesCount(addr + Room(addr), len - Room(addr));
    }
  }

  lemma PageEnd(addr: nat)
    ensures (addr + Room(addr)) % 4096 == 0 && Room(addr + Room(addr)) == 4096
  {
  }

  /** A fragment that ends with its page fills its pages. */
  lemma PagesFilled(addr: nat, len: nat, k: int)
    requires (addr + len) % 4096 == 0 && len <= Room(addr) + 4096 * (k - 1)
    requires k >= 1 && (if k >= 2 then len > Room(addr) + 4096 * (k - 2) else len > 0)
    ensures len == Room(addr) + 4096 * (k - 1)
  {
    PageEnd(addr);
  }

  lemma {:induction false} AllCount(sg: seq<Frag>)
    requires sg != [] && NonEmpty(sg) && StartsAligned(sg)
    ensures var k, total := |AllPages(sg)|, Bytes(sg);
      k >= 1 && AllPages(sg)[0] == sg[0].addr && 0 < total <= Room(sg[0].addr) + 4096 * (k - 1)
      && (EndsAligned(sg) && k >= 2 ==> total > Room(sg[0].addr) + 4096 * (k - 2))
    ensures forall j :: 0 < j < |AllPages(sg)| ==> AllPages(sg)[j] % 4096 == 0
    decreases |sg|
  {
    var f, rest := sg[0], sg[1..];
    assert sg == [f] + rest;
    FlattenCons(f, rest);
    StartsOfRest(sg);
    PagesCount(f.addr, f.len);
    AllPagesCons(f, rest);
    if rest != [] {
      AllCount(rest);
      assert Room(rest[0].addr) == 4096;
      if EndsAligned(sg) {
        assert (sg[0].addr + sg[0].len) % 4096 == 0;
        PagesFilled(f.addr, f.len, |Pages(f.addr, f.len)|);
        EndsOfRest(sg);
      }
    } else {
      assert AllPages(rest) == [] && Flatten(rest) == [];
    }
  }

  /** Decoding the command as the controller does gives back exactly the bytes of the
    * scatter list if and only if no entry but the last ends inside a page. */
  lemma DecodeIff(sg: seq<Frag>, listAt: nat)
    requires sg != [] && NonEmpty(sg) && StartsAligned(sg) && listAt !in Flatten(sg)
    ensures AllPages(sg) != []
    ensures var p := Encode(AllPages(sg), listAt);
      Controller(p.prp1, p.prp2, listAt, p.list, Bytes(sg)) == Flatten(sg) <==> EndsAligned(sg)
  {
    var pages, total := AllPages(sg), Bytes(sg);
    AllCount(sg);
    WalkIff(sg);
    if Room(pages[0]) < total <= Room(pages[0]) + 4096 && |pages| >= 3 {
      ListAsPage(pages, listAt, total, Flatten(sg));
    } else {
      ControllerWalks(pages, listAt, total);
    }
  }

  /** A list pointer read as a page sends the transfer to the list itself. */
  lemma ListAsPage(pages: seq<nat>, listAt: nat, total: nat, flat: seq<nat>)
    requires |pages| >= 3 && Room(pages[0]) < total <= Room(pages[0]) + 4096
    requires |flat| == total && listAt !in flat
    ensures var p := Encode(pages, listAt); Controller(p.prp1, p.prp2, listAt, p.list, total) != flat
  {
    var room, p := Room(pages[0]), Encode(pages, listAt);
    var c := Controller(p.prp1, p.prp2, listAt, p.list, total);
    assert c == Range(pages[0], room) + Range(listAt, total - room);
    assert c[room] == listAt;
    assert flat[room] in flat;
  }

  // ---------- what the entries are, by the bytes alone ----------

  /** Byte j of the data begins a page: the first byte, or one a whole number of pages
    * after the first page's end. */
  function PageByte(room: nat, j: nat): nat {
    if j == 0 then 0 else room + 4096 * (j - 1)
  }

  /** page is where byte PageByte(room, j) of the data lies. */
  predicate PageIs(page: nat, a: seq<nat>, room: nat, j: nat) {
    PageByte(room, j) < |a| && page == a[PageByte(room, j)]
  }

  lemma {:induction false} PagesAt(addr: nat, len: nat, j: nat)
    requires j < |Pages(addr, len)|
    ensures Pages(addr, len)[j] == addr + PageByte(Room(addr), j) && PageByte(Room(addr), j) < len
    decreases len
  {
    if j > 0 {
      PageEnd(addr);
      PagesAt(addr + Room(addr), len - Room(addr), j - 1);
    }
  }

  /** The entry that byte i of the list lies in starts there. */
  lemma FlattenHead(f: Frag, rest: seq<Frag>, i: nat)
    requires i < f.len + Bytes(rest)
    ensures Bytes([f] + rest) == f.len + Bytes(rest)
    ensures Flatten([f] + rest)[i] == if i < f.len then f.addr + i else Flatten(rest)[i - f.len]
  {
    FlattenCons(f, rest);
  }

  /** Entry j of an expressible list's pages is the address of its j-th page's first byte. */
  lemma {:induction false} AllPagesAt(sg: seq<Frag>, j: nat)
    requires sg != [] && Expressible(sg) && j < |AllPages(sg)|
    ensures PageIs(AllPages(sg)[j], Flatten(sg), Room(sg[0].addr), j)
    decreases |sg|
  {
    var f, rest := sg[0], sg[1..];
    assert sg == [f] + rest;
    AllPagesCons(f, rest);
    StartsOfRest(sg);
    if j < |Pages(f.addr, f.len)| {
      OwnPage(f, rest, j);
    } else {
      assert rest != [];
      assert (sg[0].addr + sg[0].len) % 4096 == 0;
      EndsOfRest(sg);
      AllPagesAt(rest, j - |Pages(f.addr, f.len)|);
      LaterPage(f, rest, Room(rest[0].addr), j, AllPages(sg)[j]);
    }
  }

  lemma OwnPage(f: Frag, rest: seq<Frag>, j: nat)
    requires j < |Pages(f.addr, f.len)|
    ensures PageIs(Pages(f.addr, f.len)[j], Flatten([f] + rest), Room(f.addr), j)
  {
    PagesAt(f.addr, f.len, j);
    FlattenHead(f, rest, PageByte(Room(f.addr), j));
  }

  /** Page j, of which the first entry holds k, is page j - k of the rest. */
  lemma LaterPage(f: Frag, rest: seq<Frag>, room: nat, j: nat, page: nat)
    requires f.len > 0 && room == 4096 && (f.addr + f.len) % 4096 == 0 && j >= |Pages(f.addr, f.len)|
    requires PageIs(page, Flatten(rest), room, j - |Pages(f.addr, f.len)|)
    ensures PageIs(page, Flatten([f] + rest), Room(f.addr), j)
  {
    var k := |Pages(f.addr, f.len)|;
    PagesCount(f.addr, f.len);
    PagesFilled(f.addr, f.len, k);
    assert PageByte(Room(f.addr), j) == f.len + PageByte(4096, j - k);
    FlattenHead(f, rest, PageByte(Room(f.addr), j));
  }

  /** What PRP1, PRP2 and the list of an expressible transfer are, by its bytes: PRP1 is the
    * first byte's address; PRP2 is 0 within one page, the second page within two and the
    * list's address beyond; and the list names every further page by its first byte. */
  lemma EncodedByBytes(sg: seq<Frag>, listAt: nat)
    requires sg != [] && Expressible(sg)
    ensures AllPages(sg) != [] && Bytes(sg) > 0
    ensures
      var p, a, room := Encode(AllPages(sg), listAt), Flatten(sg), Room(sg[0].addr);
      && p.prp1 == a[0]
      && p.prp2 == (if |a| <= room then 0 else if |a| <= room + 4096 then a[room] else listAt)
      && |a| <= room + 4096 * |p.list| && (p.list != [] ==> |a| > room + 4096 * (|p.list| - 1))
      && forall j :: 0 <= j < |p.list| ==> room + 4096 * j < |a| && p.list[j] == a[room + 4096 * j]
  {
    AllCount(sg);
    var pages, a, room := AllPages(sg), Flatten(sg), Room(sg[0].addr);
    forall j | 0 <= j < |pages| ensures PageIs(pages[j], a, room, j) {
      AllPagesAt(sg, j);
    }
    EncodedPages(pages, a, room, listAt);
  }

  lemma EncodedPages(pages: seq<nat>, a: seq<nat>, room: nat, listAt: nat)
    requires pages != [] && a != [] && forall j :: 0 <= j < |pages| ==> PageIs(pages[j], a, room, j)
    requires |a| <= room + 4096 * (|pages| - 1) && (|pages| >= 2 ==> |a| > room + 4096 * (|pages| - 2))
    ensures
      var p := Encode(pages, listAt);
      && p.prp1 == a[0]
      && p.prp2 == (if |a| <= room then 0 else if |a| <= room + 4096 then a[room] else listAt)
      && |a| <= room + 4096 * |p.list| && (p.list != [] ==> |a| > room + 4096 * (|p.list| - 1))
      && forall j :: 0 <= j < |p.list| ==> room + 4096 * j < |a| && p.list[j] == a[room + 4096 * j]
  {
    assert PageIs(pages[0], a, room, 0);
    if |pages| == 2 { assert PageIs(pages[1], a, room, 1); }
    forall j | 0 <= j < |pages| - 1 ensures room + 4096 * j < |a| && pages[1..][j] == a[room + 4096 * j] {
      assert PageIs(pages[j + 1], a, room, j + 1);
    }
  }

  /** A transfer of at most 256 entries and 1 MiB, which is what the volume admits, needs
    * no more than the 512 entries of one list page. */
  lemma ListFitsPage(sg: seq<Frag>)
    requires sg != [] && NonEmpty(sg) && StartsAligned(sg)
    requires |sg| <= 256 && Bytes(sg) <= 0x10_0000
    ensures |AllPages(sg)| - 1 <= 512
  {
    PagesFit(sg);
  }

  lemma {:induction false} PagesFit(sg: seq<Frag>)
    requires sg != [] && NonEmpty(sg) && StartsAligned(sg)
    ensures |AllPages(sg)| * 4096 <= Bytes(sg) + 4096 * (|sg| + 1)
    decreases |sg|
  {
    var f, rest := sg[0], sg[1..];
    assert sg == [f] + rest;
    FlattenCons(f, rest);
    StartsOfRest(sg);
    PagesCount(f.addr, f.len);
    AllPagesCons(f, rest);
    if rest != [] {
      RestFits(rest);
    } else {
      assert AllPages(rest) == [];
    }
  }

  lemma {:induction false} RestFits(sg: seq<Frag>)
    requires sg != [] && NonEmpty(sg) && StartsAligned(sg) && sg[0].addr % 4096 == 0
    ensures |AllPages(sg)| * 4096 <= Bytes(sg) + 4096 * |sg|
    decreases |sg|
  {
    var f, rest := sg[0], sg[1..];
    assert sg == [f] + rest;
    FlattenCons(f, rest);
    StartsOfRest(sg);
    PagesCount(f.addr, f.len);
    AllPagesCons(f, rest);
    if rest != [] {
      RestFits(rest);
    } else {
      assert AllPages(rest) == [];
    }
  }

  // ---------- the builder ----------

  /** One page: PRP1, PRP2 or a list slot. */
  method AddPage(list: array<nat>, n: nat, addr: nat, prp2: nat) returns (prp2': nat)
    requires 1 <= n <= list.Length
    modifies list
    ensures prp2' == if n == 1 then addr else prp2
    ensures list[n - 1] == addr && forall k :: 0 <= k < list.Length && k != n - 1 ==> list[k] == old(list[k])
  {
    prp2' := if n == 1 then addr else prp2;
    list[n - 1] := addr;
  }

  /** What has been written after the pages so far. */
  predicate Filled(list: seq<nat>, pages: seq<nat>, n: nat, prp1: nat, prp2: nat) {
    && n == |pages| && (n > 0 ==> prp1 == pages[0] && n - 1 <= |list| && list[..n - 1] == pages[1..])
    && (n >= 2 ==> prp2 == pages[1]) && (n < 2 ==> prp2 == 0)
  }

  lemma Regroup(a: seq<nat>, x: nat, b: seq<nat>)
    ensures a + ([x] + b) == (a + [x]) + b
  {
  }

  lemma AlignedPage(addr: nat, left: nat)
    requires addr % 4096 == 0 && left > 0
    ensures Pages(addr, left) == [addr] + Pages(addr + 4096, left - Least(left, 4096))
  {
    assert Room(addr) == 4096;
    if left <= 4096 { assert Pages(addr + left, 0) == [] && Pages(addr + 4096, 0) == []; }
  }

  /** The inner loop: the rest of an entry, a page at a time. */
  method AddPages(list: array<nat>, start: nat, len: nat, n: nat, prp1: nat, prp2: nat, ghost pages: seq<nat>)
    returns (n': nat, prp2': nat)
    requires Filled(list[..], pages, n, prp1, prp2) && n >= 1 && (len > 0 ==> start % 4096 == 0)
    requires n + |Pages(start, len)| - 1 <= list.Length
    modifies list
    ensures Filled(list[..], pages + Pages(start, len), n', prp1, prp2')
  {
    var addr, left := start, len;
    n', prp2' := n, prp2;
    ghost var done := pages;
    assert pages + Pages(start, len) == done + Pages(addr, left);
    while left > 0
      invariant (left > 0 ==> addr % 4096 == 0) && n' >= 1
      invariant pages + Pages(start, len) == done + Pages(addr, left)
      invariant Filled(list[..], done, n', prp1, prp2')
      decreases left
    {
      var chunk := Least(left, 4096);
      AlignedPage(addr, left);
      Regroup(done, addr, Pages(addr + 4096, left - chunk));
      prp2' := AddPage(list, n', addr, prp2');
      done := done + [addr];
      assert list[..n'] == done[1..];
      n', left := n' + 1, left - chunk;
      addr := addr + 4096;
    }
    assert pages + Pages(start, len) == done;
  }

  lemma {:induction false} AllPagesSnoc(sg: seq<Frag>, f: Frag)
    ensures AllPages(sg + [f]) == AllPages(sg) + Pages(f.addr, f.len)
    decreases |sg|
  {
    if sg == [] {
      assert [] + [f] == [f] && [f][1..] == [];
    } else {
      assert (sg + [f])[0] == sg[0] && (sg + [f])[1..] == sg[1..] + [f];
      AllPagesSnoc(sg[1..], f);
    }
  }

  /** The pages of the first i + 1 entries. */
  lemma PrefixFits(sg: seq<Frag>, i: nat)
    requires i < |sg| && NonEmpty(sg) && forall k :: 0 < k <= i ==> sg[k].addr % 4096 == 0
    ensures AllPages(sg[..i + 1]) == AllPages(sg[..i]) + Pages(sg[i].addr, sg[i].len)
    ensures |AllPages(sg[..i + 1])| - 1 <= |sg| + Bytes(sg) / 4096
  {
    assert sg[..i + 1] == sg[..i] + [sg[i]];
    AllPagesSnoc(sg[..i], sg[i]);
    FlattenPrefix(sg, i + 1);
    PagesFit(sg[..i + 1]);
  }

  /** rc_volume_build_prp: refuses exactly the lists with an entry, not the first, that
    * starts inside a page.  256 entries and 1 MiB go with the list page's 512 slots. */
  method BuildPrp(sg: seq<Frag>, list: array<nat>, listAt: nat) returns (r: Prps)
    requires NonEmpty(sg) && |sg| + Bytes(sg) / 4096 <= list.Length
    modifies list
    ensures r.Unexpressible? <==> !StartsAligned(sg)
    ensures r.Prps? && sg != [] ==> AllPages(sg) != [] && r == Encode(AllPages(sg), listAt)
    ensures r.Prps? && sg != [] ==>
      |AllPages(sg)| - 1 <= list.Length && list[..|AllPages(sg)| - 1] == AllPages(sg)[1..]
  {
    var n, prp1, prp2 := 0, 0, 0;
    ghost var pages: seq<nat> := [];
    assert sg[..0] == [] && AllPages([]) == [];
    for i := 0 to |sg|
      invariant forall k :: 0 < k < i ==> sg[k].addr % 4096 == 0
      invariant pages == AllPages(sg[..i]) && Filled(list[..], pages, n, prp1, prp2) && (i > 0 ==> n >= 1)
    {
      var addr, len := sg[i].addr, sg[i].len;
      if i > 0 && addr % 4096 != 0 { return Unexpressible; }
      PrefixFits(sg, i);
      ghost var next := pages + Pages(addr, len);
      if i == 0 {
        var first := Least(len, Room(addr));
        PageEnd(addr);
        prp1, n := addr, 1;
        assert next == [addr] + Pages(addr + first, len - first);
        pages := [addr];
        addr, len := addr + first, len - first;
      }
      n, prp2 := AddPages(list, addr, len, n, prp1, prp2, pages);
      pages := next;
    }
    assert sg[..|sg|] == sg;
    if sg == [] { return Prps(0, 0, []); }
    AllCount(sg);
    if n > 2 { prp2 := listAt; }
    r := Prps(prp1, prp2, list[..n - 1]);
  }

  // ---------- why the merging builder's lists pass ----------

  /** The block layer's promise: consecutive fragments join without a gap, or part at a
    * page boundary. */
  predicate VirtBoundary(bvecs: seq<Frag>) {
    forall i :: 0 <= i < |bvecs| - 1 ==> Meets(bvecs[i], bvecs[i + 1])
  }

  predicate Meets(a: Frag, b: Frag) {
    b.addr == a.addr + a.len || ((a.addr + a.len) % 4096 == 0 && b.addr % 4096 == 0)
  }

  /** The fragments of one request through rc_volume_sg_append, in order. */
  function Merge(bvecs: seq<Frag>, max: nat): Option<seq<Frag>> {
    if bvecs == [] then Some([])
    else
      var before := Merge(bvecs[..|bvecs| - 1], max);
      if before.None? then None else Append(before.value, bvecs[|bvecs| - 1], max)
  }

  /** Non-empty entries, with page boundaries only between them. */
  predicate Expressible(sg: seq<Frag>) {
    NonEmpty(sg) && StartsAligned(sg) && EndsAligned(sg)
  }

  /** Where a list ends. */
  function End(sg: seq<Frag>): nat
    requires sg != []
  {
    sg[|sg| - 1].addr + sg[|sg| - 1].len
  }

  /** Merging leaves page boundaries only, so the controller reads back every byte. */
  lemma {:induction false} MergedIsExpressible(bvecs: seq<Frag>, max: nat)
    requires VirtBoundary(bvecs) && NonEmpty(bvecs) && Merge(bvecs, max).Some?
    ensures var sg := Merge(bvecs, max).value;
      Flatten(sg) == Flatten(bvecs) && Expressible(sg) && (bvecs != [] ==> sg != [] && End(sg) == End(bvecs))
    decreases |bvecs|
  {
    if bvecs != [] {
      var init, last := bvecs[..|bvecs| - 1], bvecs[|bvecs| - 1];
      MergedIsExpressible(init, max);
      var sg := Merge(init, max).value;
      AppendFlattens(sg, last, max);
      if init == [] {
        FirstEntry(sg, last, max);
      } else {
        assert Meets(bvecs[|init| - 1], bvecs[|init|]);
        AppendKeepsBoundaries(sg, last, max);
      }
    }
  }

  lemma FirstEntry(sg: seq<Frag>, f: Frag, max: nat)
    requires Flatten(sg) == [] && NonEmpty(sg) && f.len > 0
    ensures var r := Append(sg, f, max);
      r.Some? ==> Expressible(r.value) && r.value != [] && End(r.value) == f.addr + f.len
  {
    if sg != [] { RestStarts(sg); }
  }

  lemma AppendKeepsBoundaries(sg: seq<Frag>, f: Frag, max: nat)
    requires sg != [] && Expressible(sg) && f.len > 0
    requires f.addr == End(sg) || (End(sg) % 4096 == 0 && f.addr % 4096 == 0)
    ensures var r := Append(sg, f, max);
      r.Some? ==> Expressible(r.value) && r.value != [] && End(r.value) == f.addr + f.len
  {
  }
}
