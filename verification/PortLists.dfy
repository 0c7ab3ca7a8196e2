/** Port lists such as "T:1-3,6,U:103-333": the list parser of the network library and the
    separate one of the TCP connect scanner. Numbers are unbounded. */
module PortLists {
  import opened Options
  import opened ScanState
  import opened Sequences

  // ----- numbers, as the C library reads them -----

  predicate IsDigit(c: char) { '0' <= c <= '9' }

  predicate IsSpace(c: char) { c == ' ' || '\t' <= c <= '\r' }

  function Leading(s: string, p: char -> bool): (n: nat)
    ensures n <= |s| && (forall i | 0 <= i < n :: p(s[i])) && (n < |s| ==> !p(s[n]))
  {
    if s == "" || !p(s[0]) then 0 else 1 + Leading(s[1..], p)
  }

  /** The value of a string of digits. */
  function Decimal(s: string): nat
    requires forall i | 0 <= i < |s| :: IsDigit(s[i])
  {
    if s == "" then 0 else
      var n := |s| - 1;
      assert IsDigit(s[n]);
      10 * Decimal(s[..n]) + (s[n] as int - '0' as int)
  }

  /** strtol: the value, and how many characters were used; none when there is no number. */
  function Strtol(s: string): (r: (int, nat))
    ensures r.1 <= |s|
  {
    var w := Leading(s, IsSpace);
    var t := s[w..];
    var g := if t != "" && (t[0] == '-' || t[0] == '+') then 1 else 0;
    var d := Leading(t[g..], IsDigit);
    if d == 0 then (0, 0)
    else
      var v: int := Decimal(t[g..][..d]);
      (if t[0] == '-' then -v else v, w + g + d)
  }

  function Atoi(s: string): int { Strtol(s).0 }

  /** The first `c` in `s`, or the length. */
  function Position(s: string, c: char): (k: nat)
    ensures k <= |s| && c !in s[..k] && (k < |s| ==> s[k] == c)
  {
    if s == "" || s[0] == c then 0 else
      var k := 1 + Position(s[1..], c);
      assert s[..k] == [s[0]] + s[1..][..k - 1];
      k
  }

  /** The first "c:" in `s`, or the length. */
  function Section(s: string, c: char): (k: nat)
    ensures k <= |s| && (k < |s| ==> k + 2 <= |s| && s[k] == c && s[k + 1] == ':')
  {
    if |s| < 2 then |s| else if s[0] == c && s[1] == ':' then 0 else 1 + Section(s[1..], c)
  }

  /** There is none before it. */
  lemma {:induction false} NoSectionBefore(s: string, c: char, j: nat)
    requires j < Section(s, c) && j + 1 < |s|
    ensures s[j] != c || s[j + 1] != ':'
  {
    if j > 0 { NoSectionBefore(s[1..], c, j - 1); }
  }

  /** The ports from `lo` to `hi`. */
  function Range(lo: int, hi: int): (r: seq<int>)
    ensures |r| == if hi < lo then 0 else hi - lo + 1
    ensures forall i | 0 <= i < |r| :: r[i] == lo + i
    decreases hi - lo
  {
    if hi < lo then [] else Range(lo, hi - 1) + [hi]
  }

  // ----- getpts -----

  function Stripped(s: string): string {
    if s == "" then "" else
      var n := |s| - 1;
      Stripped(s[..n]) + (if s[n] == ' ' then "" else [s[n]])
  }

  /** What is between "T:" and "U:", without the comma before the latter. */
  function TcpPart(s: string): string { BeforeUdp(AfterTcp(s)) }

  function AfterTcp(s: string): string {
    var t := Section(s, 'T');
    if t < |s| then s[t + 2..] else s
  }

  function BeforeUdp(e: string): string {
    var u := Section(e, 'U');
    if u == |e| then e else if u > 0 && e[u - 1] == ',' then e[..u - 1] else e[..u]
  }

  /** The bounds one list element stands for. */
  function Bounds(seg: string): (int, int) {
    var (start, end) :=
      if seg != "" && seg[0] == '-' then (1, Atoi(seg[1..]))
      else
        var q := Position(seg, '-');
        (Atoi(seg), if q == |seg| then Atoi(seg) else if q + 1 < |seg| then Atoi(seg[q + 1..]) else 65535);
    (if start < 1 then 1 else start, end)
  }

  datatype Listing =
    | Malformed
    | TooMany             // more than fit into the array of ports
    | Ports(ports: seq<nat>)

  const MAX_PORTS := 65535

  /** The ports of the elements from `e` on, when `n` are there already. */
  function Elements(e: string, n: nat): Listing
    decreases |e|
  {
    var p := Position(e, ',');
    var (start, end) := Bounds(e[..p]);
    if start > end then Malformed
    else if n + (end - start + 1) > MAX_PORTS then TooMany
    else
      var here := Stored(Range(start, end));
      if p == |e| then Ports(here) else
        match Elements(e[p + 1..], n + |here|)
        case Ports(rest) => Ports(here + rest)
        case other => other
  }

  /** As they are kept in 16 bits. */
  function Stored(ports: seq<int>): (r: seq<nat>)
    ensures |r| == |ports|
  {
    seq(|ports|, i requires 0 <= i < |ports| => ports[i] % 65536)
  }

  // ----- the order of the list: zero ends it -----

  function Key(p: nat): nat { if p == 0 then 65536 else p }

  ghost predicate Ordered(s: seq<nat>) { forall i, j | 0 <= i < j < |s| :: Key(s[i]) <= Key(s[j]) }

  /** Where `p` belongs in `s`. */
  function Slot(p: nat, s: seq<nat>): (k: nat)
    ensures k <= |s| && (forall i | 0 <= i < k :: Key(s[i]) < Key(p)) && (k < |s| ==> Key(p) <= Key(s[k]))
  {
    if s == [] || Key(p) <= Key(s[0]) then 0 else 1 + Slot(p, s[1..])
  }

  function Insert(p: nat, s: seq<nat>): seq<nat> {
    var k := Slot(p, s);
    s[..k] + [p] + s[k..]
  }

  lemma InsertKeeps(p: nat, s: seq<nat>)
    requires Ordered(s)
    ensures Ordered(Insert(p, s)) && multiset(Insert(p, s)) == multiset(s) + multiset{p}
  {
    hide Key;
    var k, r := Slot(p, s), Insert(p, s);
    assert s == s[..k] + s[k..];
    forall i, j | 0 <= i < j < |r| ensures Key(r[i]) <= Key(r[j]) {
      if k < |s| && j >= k && i <= k { assert Key(p) <= Key(s[k]); }
    }
  }

  function Sorted(s: seq<nat>): (r: seq<nat>)
    ensures Ordered(r) && multiset(r) == multiset(s)
  {
    if s == [] then [] else
      InsertKeeps(s[0], Sorted(s[1..]));
      assert s == [s[0]] + s[1..];
      Insert(s[0], Sorted(s[1..]))
  }

  /** getpts: the sorted list, ended by zero. */
  function GetPts(expr: string): Listing {
    match Elements(TcpPart(Stripped(expr)), 0)
    case Ports(ports) => Ports(Sorted(ports + [0]))
    case other => other
  }

  // ----- the list parser of the connect scanner -----

  datatype Marking =
    | Unparsable
    | Stuck                    // a character that is neither used nor passed over
    | OutOfRange               // a port outside the table
    | Marked(ports: seq<int>)

  datatype Element = Over | Failed(why: Marking) | Ranging(lo: int, hi: int, rest: string)

  predicate IsSection(s: string, c: char) { |s| >= 2 && s[0] == c && s[1] == ':' }

  predicate IsComma(c: char) { c == ',' }

  /** A port or a range; only the comma after a single port belongs to it. */
  function PortOrRange(b: string): (r: Element)
    ensures r.Ranging? ==> |r.rest| < |b|
    ensures r.Failed? ==> !r.why.Marked?
  {
    if b != "" && b[0] == '-' then
      var (v, k) := Strtol(b[1..]);
      if k == 0 then Failed(Unparsable) else Ranging(1, v, b[1 + k..])
    else
      var (v, k) := Strtol(b);
      if k == 0 then Failed(Unparsable) else
        var q := b[k..];
        if q == "" then Ranging(v, v, "")
        else if q[0] == ',' then Ranging(v, v, q[1..])
        else if q[0] != '-' then Failed(Stuck)
        else if |q| == 1 then Ranging(v, 65535, "")
        else
          var (w, l) := Strtol(q[1..]);
          if l == 0 then Failed(Unparsable) else Ranging(v, w, q[1 + l..])
  }

  /** The next element, after commas and the mark of the TCP part. */
  function NextElement(s: string): (r: Element)
    ensures r.Ranging? ==> |r.rest| < |s|
    ensures r.Failed? ==> !r.why.Marked?
  {
    var a := s[Leading(s, IsComma)..];
    if IsSection(a, 'U') then Over else PortOrRange(if IsSection(a, 'T') then a[2..] else a)
  }

  function Marks(s: string): Marking
    decreases |s|
  {
    if s == "" then Marked([]) else
      match NextElement(s)
      case Over => Marked([])
      case Failed(why) => why
      case Ranging(lo, hi, rest) =>
        if lo <= hi && (lo < 0 || hi >= PORTS) then OutOfRange else
          match Marks(rest)
          case Marked(ports) => Marked(Range(lo, hi) + ports)
          case other => other
  }

  // ----- well-formed lists -----

  /** A port, or a closed range of ports, as it is written. */
  datatype Item = Item(lo: string, hi: Option<string>)

  predicate Digits(s: string) { s != "" && forall i | 0 <= i < |s| :: IsDigit(s[i]) }

  predicate WellFormed(it: Item) {
    && Digits(it.lo) && (it.hi.Some? ==> Digits(it.hi.value))
    && 1 <= Lo(it) <= Hi(it) <= MAX_PORTS
  }

  function Lo(it: Item): nat
    requires Digits(it.lo)
  {
    Decimal(it.lo)
  }

  function Hi(it: Item): nat
    requires Digits(it.lo) && (it.hi.Some? ==> Digits(it.hi.value))
  {
    if it.hi.Some? then Decimal(it.hi.value) else Decimal(it.lo)
  }

  function ItemText(it: Item): string { it.lo + if it.hi.Some? then "-" + it.hi.value else "" }

  predicate AllWellFormed(items: seq<Item>) { forall i | 0 <= i < |items| :: WellFormed(items[i]) }

  function Join(items: seq<Item>): string
    requires items != []
  {
    ItemText(items[0]) + if |items| == 1 then "" else "," + Join(items[1..])
  }

  /** The ports the items list, in their order. */
  function Expand(items: seq<Item>): seq<int>
    requires AllWellFormed(items)
  {
    if items == [] then [] else
      assert WellFormed(items[0]);
      Range(Lo(items[0]), Hi(items[0])) + Expand(items[1..])
  }

  /** A list of TCP ports, and after it the UDP ports when both are given. */
  function Text(items: seq<Item>, tagged: bool, udp: Option<string>): string
    requires items != []
  {
    (if tagged then "T:" else "") + Join(items) + if udp.Some? then ",U:" + udp.value else ""
  }

  // ----- reading the items -----

  lemma {:induction false} LeadingAll(s: string, t: string, p: char -> bool)
    requires (forall i | 0 <= i < |s| :: p(s[i])) && (t == "" || !p(t[0]))
    ensures Leading(s + t, p) == |s|
  {
    if s == "" {
      assert s + t == t;
    } else {
      assert (s + t)[1..] == s[1..] + t;
      LeadingAll(s[1..], t, p);
    }
  }

  lemma StrtolDigits(ds: string, t: string)
    requires Digits(ds) && (t == "" || !IsDigit(t[0]))
    ensures Strtol(ds + t) == (Decimal(ds), |ds|)
  {
    hide Decimal, Strtol, Leading;
    var s := ds + t;
    assert s[0] == ds[0] && IsDigit(ds[0]);
    LeadingAll(ds, t, IsDigit);
    StrtolPlain(s, |ds|);
    assert s[..|ds|] == ds;
  }

  /** A number without spaces or a sign before it. */
  lemma StrtolPlain(s: string, d: nat)
    requires 0 < d <= |s| && IsDigit(s[0]) && Leading(s, IsDigit) == d
    ensures Strtol(s) == (Decimal(s[..d]), d)
  {
    hide Decimal, Leading;
    LeadingNone(s, IsSpace);
    assert s[0..] == s;
  }

  lemma LeadingNone(s: string, p: char -> bool)
    requires s != "" && !p(s[0])
    ensures Leading(s, p) == 0
  {
  }

  lemma ItemIsRange(it: Item, tail: string)
    requires WellFormed(it) && (tail == "" || tail[0] == ',')
    ensures PortOrRange(ItemText(it) + tail) ==
            Ranging(Lo(it), Hi(it), if it.hi.Some? || tail == "" then tail else tail[1..])
  {
    hide Strtol, Decimal;
    var s := ItemText(it) + tail;
    var q := if it.hi.Some? then "-" + (it.hi.value + tail) else tail;
    assert s == it.lo + q;
    assert s[0] == it.lo[0] && IsDigit(it.lo[0]);
    StrtolDigits(it.lo, q);
    assert s[|it.lo|..] == q;
    if it.hi.Some? {
      StrtolDigits(it.hi.value, tail);
      assert q[1..] == it.hi.value + tail;
      assert q[1 + |it.hi.value|..] == tail;
    }
  }

  /** The element one item makes. */
  lemma ItemIsNext(it: Item, lead: string, tail: string)
    requires WellFormed(it) && (lead == "" || lead == "," || lead == "T:") && (tail == "" || tail[0] == ',')
    ensures NextElement(lead + (ItemText(it) + tail)) ==
            Ranging(Lo(it), Hi(it), if it.hi.Some? || tail == "" then tail else tail[1..])
  {
    hide PortOrRange, Decimal;
    ItemIsRange(it, tail);
    var text := ItemText(it) + tail;
    assert IsDigit(it.lo[0]) && text[0] == it.lo[0];
    var s := lead + text;
    if lead == "," {
      LeadingAll(lead, text, IsComma);
      assert s[1..] == text;
    } else {
      assert Leading(s, IsComma) == 0 && s[0..] == s;
      if lead == "" { assert s == text; } else { assert s[2..] == text; }
    }
  }

  /** What may stand after the TCP ports. */
  ghost predicate Ending(t: string) { t == "" || (|t| >= 3 && t[..3] == ",U:") }

  lemma UdpEnds(t: string)
    requires IsSection(t, 'U')
    ensures NextElement(t) == Over && NextElement("," + t) == Over
  {
    hide PortOrRange;
    assert Leading(t, IsComma) == 0 && t[0..] == t;
    LeadingAll(",", t, IsComma);
    assert ("," + t)[1..] == t;
  }

  lemma NothingMore(t: string)
    requires Ending(t)
    ensures Marks(t) == Marked([]) && (t != "" ==> Marks(t[1..]) == Marked([]))
  {
    hide NextElement;
    if t != "" {
      assert t[0] == t[..3][0] && t[1] == t[..3][1] && t[2] == t[..3][2];
      assert t == "," + t[1..];
      UdpEnds(t[1..]);
    }
  }

  lemma MarksOne(s: string, lo: nat, hi: nat, rest: string, ports: seq<int>)
    requires NextElement(s) == Ranging(lo, hi, rest) && hi < PORTS && Marks(rest) == Marked(ports) && s != ""
    ensures Marks(s) == Marked(Range(lo, hi) + ports)
  {
    hide NextElement;
  }

  lemma ItemFacts(it: Item)
    requires WellFormed(it)
    ensures ItemText(it) != "" && Digits(it.lo) && (it.hi.Some? ==> Digits(it.hi.value))
    ensures 1 <= Lo(it) <= Hi(it) < PORTS
  {
  }

  /** The scanner marks the listed ports. */
  lemma {:induction false} JoinIsMarked(items: seq<Item>, lead: string, t: string)
    requires items != [] && AllWellFormed(items) && Ending(t) && (lead == "" || lead == "," || lead == "T:")
    ensures Marks(lead + (Join(items) + t)) == Marked(Expand(items))
    decreases |items|
  {
    hide NextElement, Marks, WellFormed, ItemText, Lo, Hi, Digits, Ending;
    var it, rest := items[0], items[1..];
    assert WellFormed(it);
    ItemFacts(it);
    NothingMore(t);
    var tail := if |items| == 1 then t else "," + (Join(rest) + t);
    assert Join(items) + t == ItemText(it) + tail;
    EndingComma(t);
    ItemIsNext(it, lead, tail);
    if |items| == 1 {
      MarksOne(lead + (ItemText(it) + tail), Lo(it), Hi(it), if it.hi.Some? || tail == "" then tail else tail[1..], []);
    } else {
      JoinIsMarked(rest, ",", t);
      JoinIsMarked(rest, "", t);
      assert tail[1..] == "" + (Join(rest) + t);
      MarksOne(lead + (ItemText(it) + tail), Lo(it), Hi(it), if it.hi.Some? then tail else tail[1..], Expand(rest));
    }
  }

  lemma EndingComma(t: string)
    requires Ending(t)
    ensures t == "" || t[0] == ','
  {
    if t != "" { assert t[0] == t[..3][0]; }
  }

  // ----- the list parser on well-formed lists -----

  lemma {:induction false} StrippedAppend(a: string, b: string)
    ensures Stripped(a + b) == Stripped(a) + Stripped(b)
  {
    if b == "" {
      assert a + b == a;
    } else {
      var n := |b| - 1;
      assert (a + b)[..|a + b| - 1] == a + b[..n];
      StrippedAppend(a, b[..n]);
    }
  }

  lemma {:induction false} NothingStripped(a: string)
    requires ' ' !in a
    ensures Stripped(a) == a
  {
    if a != "" {
      var n := |a| - 1;
      NothingStripped(a[..n]);
      assert a == a[..n] + [a[n]];
    }
  }

  lemma {:induction false} SectionAt(a: string, c: char, t: string)
    requires c !in a && (t == "" || IsSection(t, c))
    ensures Section(a + t, c) == |a|
  {
    if a == "" {
      assert a + t == t;
    } else {
      assert (a + t)[1..] == a[1..] + t;
      SectionAt(a[1..], c, t);
    }
  }

  /** No character of a list of items is a space or a letter. */
  lemma {:induction false} JoinPlain(items: seq<Item>, c: char)
    requires items != [] && AllWellFormed(items) && !IsDigit(c) && c != '-' && c != ','
    ensures c !in Join(items)
  {
    hide Decimal;
    var it := items[0];
    assert WellFormed(it);
    ItemPlain(it, c);
    if |items| > 1 { JoinPlain(items[1..], c); }
  }

  lemma ItemPlain(it: Item, c: char)
    requires WellFormed(it) && !IsDigit(c) && c != '-'
    ensures c !in ItemText(it)
  {
    hide Decimal;
    assert forall i | 0 <= i < |it.lo| :: IsDigit(it.lo[i]);
  }

  lemma {:induction false} PositionAt(a: string, c: char, t: string)
    requires c !in a && (t == "" || t[0] == c)
    ensures Position(a + t, c) == |a|
  {
    if a == "" {
      assert a + t == t;
    } else {
      assert (a + t)[1..] == a[1..] + t;
      PositionAt(a[1..], c, t);
    }
  }

  lemma {:induction false} SectionAfter(a: string, c: char, t: string)
    requires c !in a
    ensures Section(a + t, c) == |a| + Section(t, c)
  {
    if a == "" {
      assert a + t == t;
    } else {
      assert (a + t)[1..] == a[1..] + t;
      SectionAfter(a[1..], c, t);
    }
  }

  /** A UDP part is told from an untagged list unless it holds a mark of TCP ports itself. */
  predicate TellsUdp(tagged: bool, udp: Option<string>) {
    !tagged && udp.Some? ==> Section(Stripped(udp.value), 'T') == |Stripped(udp.value)|
  }

  /** The spaces gone. */
  lemma StrippedText(j: string, udp: string)
    requires ' ' !in j
    ensures Stripped("T:" + j) == "T:" + j
    ensures Stripped("T:" + j + (",U:" + udp)) == "T:" + (j + (",U:" + Stripped(udp)))
    ensures Stripped(j + (",U:" + udp)) == j + (",U:" + Stripped(udp))
  {
    hide Stripped;
    var a, u := "T:" + j, ",U:";
    NothingStripped(a);
    NothingStripped(u);
    NothingStripped(j);
    StrippedAppend(j, u + udp);
    StrippedAppend(a, u + udp);
    StrippedAppend(u, udp);
    Associate("T:", j, u + Stripped(udp));
  }

  /** Exactly the items are between the marks. */
  lemma TcpPartIs(items: seq<Item>, tagged: bool, udp: Option<string>)
    requires items != [] && AllWellFormed(items) && TellsUdp(tagged, udp)
    ensures TcpPart(Stripped(Text(items, tagged, udp))) == Join(items)
  {
    hide Join, AllWellFormed, Stripped, TcpPart;
    var j := Join(items);
    JoinPlain(items, ' ');
    JoinPlain(items, 'T');
    JoinPlain(items, 'U');
    if !tagged && udp.None? {
      assert Text(items, tagged, udp) == j;
      NothingStripped(j);
      Untagged(j, "");
      assert j + "" == j;
    } else if !tagged {
      assert Text(items, tagged, udp) == j + (",U:" + udp.value);
      StrippedText(j, udp.value);
      SectionAfter(",U:", 'T', Stripped(udp.value));
      Untagged(j, ",U:" + Stripped(udp.value));
    } else if udp.None? {
      assert Text(items, tagged, udp) == "T:" + j;
      StrippedText(j, "");
      CutOut(j, "");
      assert j + "" == j;
    } else {
      StrippedText(j, udp.value);
      CutOut(j, ",U:" + Stripped(udp.value));
    }
  }

  lemma Untagged(j: string, tail: string)
    requires 'T' !in j && 'U' !in j && Ending(tail) && Section(tail, 'T') == |tail|
    ensures TcpPart(j + tail) == j
  {
    hide Ending, BeforeUdp;
    SectionAfter(j, 'T', tail);
    UntilUdp(j, tail);
  }

  lemma CutOut(j: string, tail: string)
    requires 'T' !in j && 'U' !in j && Ending(tail)
    ensures TcpPart("T:" + (j + tail)) == j
  {
    hide Ending, BeforeUdp;
    var s := "T:" + (j + tail);
    assert Section(s, 'T') == 0 && s[2..] == j + tail;
    UntilUdp(j, tail);
  }

  /** The end of the TCP ports, without the comma before the UDP part. */
  lemma UntilUdp(j: string, tail: string)
    requires 'U' !in j && Ending(tail)
    ensures BeforeUdp(j + tail) == j
  {
    var e := j + tail;
    if tail == "" {
      SectionAt(j, 'U', "");
      assert e == j;
    } else {
      assert tail[0] == tail[..3][0] && tail[1] == tail[..3][1] && tail[2] == tail[..3][2];
      assert e == (j + ",") + tail[1..];
      SectionAt(j + ",", 'U', tail[1..]);
      assert e[..|j|] == j;
    }
  }

  lemma ItemBounds(it: Item)
    requires WellFormed(it)
    ensures Bounds(ItemText(it)) == (Lo(it), Hi(it))
  {
    hide Strtol, Decimal;
    var s := ItemText(it);
    var q := if it.hi.Some? then "-" + it.hi.value else "";
    assert IsDigit(it.lo[0]) && s[0] == it.lo[0];
    StrtolDigits(it.lo, q);
    assert '-' !in it.lo;
    PositionAt(it.lo, '-', q);
    if it.hi.Some? {
      StrtolDigits(it.hi.value, "");
      assert s[|it.lo| + 1..] == it.hi.value + "";
    }
  }

  lemma StoredSame(lo: nat, hi: nat)
    requires hi < PORTS
    ensures Stored(Range(lo, hi)) == Range(lo, hi)
  {
  }

  lemma {:induction false} ExpandSmall(items: seq<Item>)
    requires AllWellFormed(items)
    ensures forall i | 0 <= i < |Expand(items)| :: 1 <= Expand(items)[i] < PORTS
  {
    hide WellFormed, Lo, Hi;
    if items != [] {
      assert WellFormed(items[0]);
      ItemFacts(items[0]);
      ExpandSmall(items[1..]);
    }
  }

  /** One element of the list. */
  lemma ElementsOne(seg: string, tail: string, n: nat, lo: nat, hi: nat)
    requires ',' !in seg && (tail == "" || tail[0] == ',')
    requires Bounds(seg) == (lo, hi) && lo <= hi < PORTS && n + (hi - lo + 1) <= MAX_PORTS
    ensures tail == "" ==> Elements(seg + tail, n) == Ports(Stored(Range(lo, hi)))
    ensures tail != "" ==> var r := Elements(tail[1..], n + (hi - lo + 1));
              r.Ports? ==> Elements(seg + tail, n) == Ports(Stored(Range(lo, hi)) + r.ports)
  {
    hide Bounds, Stored, Range;
    var e := seg + tail;
    PositionAt(seg, ',', tail);
    assert e[..|seg|] == seg;
    if tail != "" { assert e[|seg| + 1..] == tail[1..]; }
  }

  /** The list parser collects the listed ports. */
  lemma {:induction false} ElementsAre(items: seq<Item>, n: nat)
    requires items != [] && AllWellFormed(items) && n + |Expand(items)| <= MAX_PORTS
    ensures var r := Elements(Join(items), n); r.Ports? && r.ports == Expand(items)
    decreases |items|
  {
    hide WellFormed, Lo, Hi, ItemText, Bounds, Digits, Elements;
    var it, rest := items[0], items[1..];
    assert WellFormed(it);
    ItemFacts(it);
    ItemBounds(it);
    ItemPlain(it, ',');
    StoredSame(Lo(it), Hi(it));
    var here := Range(Lo(it), Hi(it));
    var tail := if |items| == 1 then "" else "," + Join(rest);
    ElementsOne(ItemText(it), tail, n, Lo(it), Hi(it));
    if |items| == 1 {
      assert here + [] == here;
    } else {
      assert tail[1..] == Join(rest);
      ElementsAre(rest, n + |here|);
    }
  }

  // ----- both parsers -----

  /** Apart from zeros, the list holds the ports and no others. */
  ghost predicate SamePorts(r: seq<nat>, ports: seq<int>) {
    forall p: int :: p in ports <==> p != 0 && p in r
  }

  /** For every well-formed list: the ports it lists, sorted and ended by zero; and the scanner's
      own parser marks the same ports, each as often as it is listed. */
  lemma ParsersAgree(items: seq<Item>, tagged: bool, udp: Option<string>)
    requires items != [] && AllWellFormed(items) && TellsUdp(tagged, udp) && |Expand(items)| <= MAX_PORTS
    ensures var r := GetPts(Text(items, tagged, udp));
            r.Ports? && Ordered(r.ports) && multiset(r.ports) == multiset(Stored(Expand(items)) + [0])
            && r.ports[..|r.ports| - 1] + [0] == r.ports
            && SamePorts(r.ports, Expand(items))
    ensures Marks(Text(items, tagged, udp)) == Marked(Expand(items))
  {
    hide Join, Expand, AllWellFormed, Elements, Marks, TcpPart, Stripped, Ordered, Sorted;
    TcpPartIs(items, tagged, udp);
    ElementsAre(items, 0);
    ExpandSmall(items);
    ListEnds(Expand(items));
    TextIsMarked(items, tagged, udp);
  }

  lemma TextIsMarked(items: seq<Item>, tagged: bool, udp: Option<string>)
    requires items != [] && AllWellFormed(items)
    ensures Marks(Text(items, tagged, udp)) == Marked(Expand(items))
  {
    hide Join, AllWellFormed, Marks;
    var t := if udp.Some? then ",U:" + udp.value else "";
    var lead := if tagged then "T:" else "";
    assert Ending(t);
    JoinIsMarked(items, lead, t);
    Associate(lead, Join(items), t);
  }

  /** In the remaining case, an untagged list before UDP ports that hold a mark of TCP ports, they differ:
      one reads the list from that mark on, the other what comes before. */
  lemma ParsersDiffer(items: seq<Item>, udp: string)
    requires items != [] && AllWellFormed(items) && !TellsUdp(false, Some(udp))
    ensures GetPts(Text(items, false, Some(udp))) == GetPts(udp)
    ensures Marks(Text(items, false, Some(udp))) == Marked(Expand(items))
  {
    hide Join, AllWellFormed, Elements, Stripped, TcpPart, Section, Marks, Expand;
    var j, u := Join(items), Stripped(udp);
    JoinPlain(items, ' ');
    JoinPlain(items, 'T');
    assert Text(items, false, Some(udp)) == j + (",U:" + udp);
    StrippedText(j, udp);
    Associate(j, ",U:", u);
    SectionAfter(j + ",U:", 'T', u);
    FromMark(j + ",U:", u, Section(u, 'T'));
    TextIsMarked(items, false, Some(udp));
  }

  lemma FromMark(lead: string, u: string, t: nat)
    requires Section(u, 'T') == t < |u| && Section(lead + u, 'T') == |lead| + t
    ensures TcpPart(lead + u) == TcpPart(u)
  {
    hide Section, BeforeUdp;
    assert AfterTcp(u) == u[t + 2..];
    assert AfterTcp(lead + u) == (lead + u)[|lead| + (t + 2)..];
    DropLead(lead, u, t + 2);
  }

  /** From "5,U:T:7" one reads 7 and the other 5. */
  lemma SevenOrFive()
    ensures var r := GetPts("5,U:T:7"); r.Ports? && 7 in r.ports && 5 !in r.ports
    ensures Marks("5,U:T:7") == Marked([5])
  {
    hide GetPts, Marks, Join, Text, Section;
    var five, seven := [Item("5", None)], [Item("7", None)];
    OneDigit(five[0], 5);
    OneDigit(seven[0], 7);
    assert Text(five, false, Some("T:7")) == "5,U:T:7" by { OneItem(five[0], false, Some("T:7")); }
    assert Text(seven, true, None) == "T:7" by { OneItem(seven[0], true, None); }
    assert Stripped("T:7") == "T:7" by { NothingStripped("T:7"); }
    assert Section("T:7", 'T') == 0 by { MarkFirst("T:7"); }
    ParsersDiffer(five, "T:7");
    ParsersAgree(seven, true, None);
    assert 7 in Expand(seven) && 5 !in Expand(seven);
  }

  lemma OneDigit(it: Item, d: nat)
    requires it.hi.None? && |it.lo| == 1 && IsDigit(it.lo[0]) && Decimal(it.lo) == d && d > 0
    ensures AllWellFormed([it]) && Expand([it]) == [d]
  {
    assert WellFormed(it);
    assert Expand([it][1..]) == [];
    assert Range(d, d) == [d];
  }

  lemma OneItem(it: Item, tagged: bool, udp: Option<string>)
    requires it.hi.None?
    ensures Text([it], tagged, udp)
         == (if tagged then "T:" else "") + it.lo + if udp.Some? then ",U:" + udp.value else ""
  {
    assert Join([it]) == it.lo;
  }

  lemma MarkFirst(s: string)
    requires |s| >= 2 && s[0] == 'T' && s[1] == ':'
    ensures Section(s, 'T') == 0
  {
  }

  lemma SameMembers(a: seq<nat>, b: seq<nat>)
    requires multiset(a) == multiset(b)
    ensures forall p :: p in a <==> p in b
  {
    forall p ensures p in a <==> p in b {
      assert p in a <==> p in multiset(a);
      assert p in b <==> p in multiset(b);
    }
  }

  lemma ZeroLast(r: seq<nat>)
    requires Ordered(r) && 0 in r && forall p | p in r :: p < PORTS
    ensures r[|r| - 1] == 0
  {
    var k :| 0 <= k < |r| && r[k] == 0;
    assert r[|r| - 1] in r;
    if k < |r| - 1 { assert Key(r[k]) <= Key(r[|r| - 1]); }
  }

  /** Sorting puts the only zero last. */
  lemma ListEnds(ports: seq<int>)
    requires forall i | 0 <= i < |ports| :: 1 <= ports[i] < PORTS
    ensures var r := Sorted(Stored(ports) + [0]);
            r != [] && r[|r| - 1] == 0 && Stored(ports) == ports && forall p :: p in ports <==> p != 0 && p in r
  {
    hide Sorted, Ordered;
    assert Stored(ports) == ports;
    var s := Stored(ports) + [0];
    var r := Sorted(s);
    SameMembers(r, s);
    assert s[|s| - 1] == 0;
    ZeroLast(r);
  }

  // ----- lists given as numbers -----

  function Digit(d: nat): char
    requires d < 10
  {
    "0123456789"[d]
  }

  /** A number in decimal. */
  function Numeral(n: nat): (s: string)
    ensures s != ""
  {
    if n < 10 then [Digit(n)] else Numeral(n / 10) + [Digit(n % 10)]
  }

  /** Reading a numeral gives the number back. */
  lemma {:induction false} NumeralRead(n: nat)
    ensures Digits(Numeral(n)) && Decimal(Numeral(n)) == n
  {
    var s := Numeral(n);
    if n < 10 {
      assert s[..0] == "";
    } else {
      NumeralRead(n / 10);
      assert s[..|s| - 1] == Numeral(n / 10);
    }
  }

  /** Zeros in front change nothing. */
  lemma {:induction false} LeadingZeros(k: nat, s: string)
    requires Digits(s)
    ensures Digits(seq(k, _ => '0') + s) && Decimal(seq(k, _ => '0') + s) == Decimal(s)
    decreases |s|
  {
    var z: string := seq(k, _ => '0');
    var t, n := z + s, |s| - 1;
    assert t[..k + n] == z + s[..n];
    if n == 0 {
      assert s[..0] == "" && z + "" == z;
      ZerosRead(k);
    } else {
      LeadingZeros(k, s[..n]);
    }
  }

  lemma {:induction false} ZerosRead(k: nat)
    ensures Decimal(seq(k, _ => '0')) == 0
  {
    var z: string := seq(k, _ => '0');
    if k > 0 {
      assert z[..k - 1] == seq(k - 1, _ => '0');
      ZerosRead(k - 1);
    }
  }

  ghost predicate IsWhite(c: char) {
    c == ' ' || c == '\t' || c == '\n' || c == '\U{0B}' || c == '\U{0C}' || c == '\r'
  }

  /** A number may have white space and a sign before it; what follows it does not matter. */
  lemma NumberRead(space: string, sign: string, n: nat, t: string)
    requires forall i | 0 <= i < |space| :: IsWhite(space[i])
    requires sign in {"", "+", "-"}
    requires t == "" || !IsDigit(t[0])
    ensures Strtol(space + sign + Numeral(n) + t) ==
            (if sign == "-" then 0 - n else n, |space| + |sign| + |Numeral(n)|)
  {
    hide Decimal, Leading, Numeral, Strtol;
    var ds := Numeral(n);
    NumeralRead(n);
    assert IsDigit(ds[0]);
    StrtolDigits(ds, t);
    var u := sign + (ds + t);
    if sign == "" {
      assert u == ds + t;
    } else {
      StrtolSigned(sign[0], ds, t);
      assert sign == [sign[0]];
    }
    StrtolSpaces(space, u);
    assert space + sign + ds + t == space + u;
  }

  lemma StrtolSpaces(space: string, u: string)
    requires (forall i | 0 <= i < |space| :: IsWhite(space[i])) && u != "" && !IsSpace(u[0])
    ensures Strtol(space + u) == (Strtol(u).0, if Strtol(u).1 == 0 then 0 else |space| + Strtol(u).1)
  {
    hide Decimal, Leading;
    LeadingAll(space, u, IsSpace);
    LeadingNone(u, IsSpace);
    assert (space + u)[|space|..] == u && u[0..] == u;
  }

  lemma StrtolSigned(sign: char, ds: string, t: string)
    requires (sign == '+' || sign == '-') && Digits(ds) && (t == "" || !IsDigit(t[0]))
    ensures var (v, k) := Strtol([sign] + (ds + t));
            k == 1 + |ds| && v == if sign == '-' then 0 - Decimal(ds) else Decimal(ds)
  {
    hide Decimal, Leading, Strtol;
    var num := ds + t;
    LeadingAll(ds, t, IsDigit);
    StrtolAfterSign(sign, num, |ds|);
    assert num[..|ds|] == ds;
  }

  lemma StrtolAfterSign(sign: char, num: string, d: nat)
    requires (sign == '+' || sign == '-') && 0 < d <= |num| && Leading(num, IsDigit) == d
    ensures var (v, k) := Strtol([sign] + num);
            k == 1 + d && v == if sign == '-' then 0 - Decimal(num[..d]) else Decimal(num[..d])
  {
    hide Decimal, Leading;
    var u := [sign] + num;
    LeadingNone(u, IsSpace);
    assert u[0..] == u && u[1..] == num;
  }

  /** The ports from `lo` to `hi`, or `lo` alone. */
  datatype Span = One(lo: nat) | Span(lo: nat, to: nat) {
    function Last(): nat { if One? then lo else to }
  }

  ghost predicate InRange(spans: seq<Span>) {
    forall i | 0 <= i < |spans| :: 1 <= spans[i].lo <= spans[i].Last() <= 65535
  }

  function Printed(spans: seq<Span>): (items: seq<Item>)
    ensures |items| == |spans|
  {
    seq(|spans|, i requires 0 <= i < |spans| =>
      Item(Numeral(spans[i].lo), if spans[i].One? then None else Some(Numeral(spans[i].to))))
  }

  /** The ports the spans name, in their order. */
  function Listed(spans: seq<Span>): seq<int> {
    if spans == [] then [] else
      var s := spans[0];
      seq(if s.lo <= s.Last() then s.Last() - s.lo + 1 else 0, i => s.lo + i) + Listed(spans[1..])
  }

  lemma {:induction false} PrintedExpands(spans: seq<Span>)
    requires InRange(spans)
    ensures AllWellFormed(Printed(spans)) && Expand(Printed(spans)) == Listed(spans)
  {
    hide Decimal, Digits, Numeral;
    var items := Printed(spans);
    forall i | 0 <= i < |items| ensures WellFormed(items[i]) {
      NumeralRead(spans[i].lo);
      NumeralRead(spans[i].Last());
    }
    if spans != [] {
      NumeralRead(spans[0].lo);
      NumeralRead(spans[0].Last());
      assert Printed(spans[1..]) == items[1..];
      PrintedExpands(spans[1..]);
      assert Range(spans[0].lo, spans[0].Last()) == seq(spans[0].Last() - spans[0].lo + 1, i => spans[0].lo + i);
    }
  }

  /** The list `r` holds the ports in ascending order, as often as they are listed, and ends with a zero. */
  ghost predicate Ascending(r: seq<nat>, ports: seq<int>) {
    && r != [] && r[|r| - 1] == 0 && multiset(r) == multiset(Stored(ports) + [0])
    && (forall i | 0 <= i < |r| - 1 :: 1 <= r[i])
    && (forall i, j | 0 <= i < j < |r| - 1 :: r[i] <= r[j])
    && SamePorts(r, ports)
  }

  /** Both parsers read from a list of numbers exactly the numbers: the list in ascending order with its
      zero at the end, the table with every mention. */
  lemma NumbersAgree(spans: seq<Span>, tagged: bool, udp: Option<string>)
    requires spans != [] && InRange(spans) && TellsUdp(tagged, udp) && |Listed(spans)| <= MAX_PORTS
    ensures var r := GetPts(Text(Printed(spans), tagged, udp)); r.Ports? && Ascending(r.ports, Listed(spans))
    ensures Marks(Text(Printed(spans), tagged, udp)) == Marked(Listed(spans))
  {
    hide AllWellFormed, GetPts, Text, Expand, Listed, Marks, Stored, Ordered, TellsUdp, Printed, Ascending;
    PrintedExpands(spans);
    ParsersAgree(Printed(spans), tagged, udp);
    ExpandSmall(Printed(spans));
    InOrder(GetPts(Text(Printed(spans), tagged, udp)).ports, Listed(spans));
  }

  lemma InOrder(r: seq<nat>, ports: seq<int>)
    requires Ordered(r) && multiset(r) == multiset(Stored(ports) + [0])
    requires r[..|r| - 1] + [0] == r && forall i | 0 <= i < |ports| :: 1 <= ports[i] < PORTS
    requires SamePorts(r, ports)
    ensures Ascending(r, ports)
  {
    hide SamePorts, Stored, Ordered;
    SmallStored(ports);
    OnlyZero(r, ports);
  }

  lemma SmallStored(ports: seq<int>)
    requires forall i | 0 <= i < |ports| :: 1 <= ports[i] < PORTS
    ensures Stored(ports) == ports
  {
  }

  lemma OnlyZero(r: seq<nat>, ports: seq<int>)
    requires Ordered(r) && multiset(r) == multiset(Stored(ports) + [0]) && Stored(ports) == ports
    requires r[..|r| - 1] + [0] == r && forall i | 0 <= i < |ports| :: 1 <= ports[i] < PORTS
    ensures r != [] && r[|r| - 1] == 0
    ensures forall i | 0 <= i < |r| - 1 :: 1 <= r[i]
    ensures forall i, j | 0 <= i < j < |r| - 1 :: r[i] <= r[j]
  {
    var n := |r| - 1;
    var body, s := r[..n], Stored(ports);
    assert r == body + [0];
    assert multiset(r) == multiset(body) + multiset{0} && multiset(s + [0]) == multiset(s) + multiset{0};
    Cancel(multiset(body), multiset(s));
    SameMembers(body, s);
    forall i | 0 <= i < n ensures 1 <= r[i] { assert r[i] == body[i] && body[i] in s; }
    forall i, j | 0 <= i < j < n ensures r[i] <= r[j] { assert Key(r[i]) <= Key(r[j]); }
  }

  lemma Cancel(a: multiset<nat>, b: multiset<nat>)
    requires a + multiset{0} == b + multiset{0}
    ensures a == b
  {
    assert (a + multiset{0}) - multiset{0} == a && (b + multiset{0}) - multiset{0} == b;
  }

  // ----- the port table -----

  ghost predicate InTable(ports: seq<int>) { forall i | 0 <= i < |ports| :: 0 <= ports[i] < PORTS }

  ghost predicate ListedOnce(ports: seq<int>) { forall i, j | 0 <= i < j < |ports| :: ports[i] != ports[j] }

  /** The table with the given ports to be tested and no others. */
  function Table(ports: seq<int>): (t: seq<PortState>)
    requires InTable(ports)
    ensures |t| == PORTS
  {
    if ports == [] then seq(PORTS, _ => NotTested) else
      var n := |ports| - 1;
      Table(ports[..n])[ports[n] := Unknown]
  }

  lemma {:induction false} TableIs(ports: seq<int>, p: int)
    requires InTable(ports) && 0 <= p < PORTS
    ensures Table(ports)[p] == if p in ports then Unknown else NotTested
  {
    if ports != [] {
      var n := |ports| - 1;
      assert ports == ports[..n] + [ports[n]];
      TableIs(ports[..n], p);
    }
  }

  /** Every mention of a port is counted: the count is that of the table exactly when no port is
      listed twice. */
  lemma {:induction false} CountIsRight(ports: seq<int>)
    requires InTable(ports)
    ensures Num(Table(ports), Unknown) <= |ports|
    ensures Num(Table(ports), Unknown) == |ports| <==> ListedOnce(ports)
  {
    if ports == [] {
      assert Unknown !in Table([]);
    } else {
      hide Table, Num;
      var n := |ports| - 1;
      CountIsRight(ports[..n]);
      TableIs(ports[..n], ports[n]);
      TableNext(ports);
      NumSet(Table(ports[..n]), ports[n]);
      assert ports == ports[..n] + [ports[n]];
      OnceMore(ports[..n], ports[n]);
    }
  }

  lemma TableNext(ports: seq<int>)
    requires InTable(ports) && ports != []
    ensures Table(ports) == Table(ports[..|ports| - 1])[ports[|ports| - 1] := Unknown]
  {
  }

  lemma NumSet(t: seq<PortState>, p: nat)
    requires p < |t|
    ensures Num(t[p := Unknown], Unknown) == Num(t, Unknown) + if t[p] == Unknown then 0 else 1
  {
  }

  lemma OnceMore(ports: seq<int>, p: int)
    ensures ListedOnce(ports + [p]) <==> ListedOnce(ports) && p !in ports
  {
    var r := ports + [p];
    if ListedOnce(r) {
      forall i, j | 0 <= i < j < |ports| ensures ports[i] != ports[j] { assert r[i] != r[j]; }
      forall i | 0 <= i < |ports| ensures ports[i] != p { assert r[i] != r[|ports|]; }
    }
  }

  // ----- the program -----

  function Following(before: seq<nat>, r: Listing): Listing {
    match r
    case Ports(ports) => Ports(before + ports)
    case other => other
  }

  /** The spaces taken out in place. */
  method StripInPlace(expr: array<char>) returns (i: nat)
    modifies expr
    ensures i <= expr.Length && expr[..i] == Stripped(old(expr[..]))
  {
    i := 0;
    ghost var s := expr[..];
    for j := 0 to expr.Length
      invariant i <= j && expr[..i] == Stripped(s[..j]) && expr[j..] == s[j..]
    {
      assert s[..j + 1][..j] == s[..j] && expr[j] == expr[j..][0];
      if expr[j] != ' ' {
        expr[i] := expr[j];
        i := i + 1;
      }
    }
    assert s[..expr.Length] == s;
  }

  /** One range into the array. */
  method Fill(ports: array<nat>, at: nat, start: int, end: int) returns (i: nat)
    requires start <= end && at + (end - start + 1) <= ports.Length
    modifies ports
    ensures i == at + (end - start + 1) && ports[..i] == old(ports[..at]) + Stored(Range(start, end))
  {
    i := at;
    for j := start to end + 1
      invariant i == at + (j - start) && ports[..i] == old(ports[..at]) + Stored(Range(start, j - 1))
    {
      ports[i] := j % 65536;
      i := i + 1;
    }
  }

  lemma ElementsStep(e: string, n: nat, before: seq<nat>)
    requires |before| == n
    ensures var p := Position(e, ','); var (start, end) := Bounds(e[..p]);
            var here := if start <= end then Stored(Range(start, end)) else [];
            if start > end then Elements(e, n) == Malformed
            else if n + (end - start + 1) > MAX_PORTS then Elements(e, n) == TooMany
            else if p == |e| then Following(before, Elements(e, n)) == Ports(before + here)
            else Following(before, Elements(e, n)) == Following(before + here, Elements(e[p + 1..], n + |here|))
  {
    hide Bounds, Stored, Position, Range;
    var p := Position(e, ',');
    var (start, end) := Bounds(e[..p]);
    if start <= end && p < |e| {
      var here := Stored(Range(start, end));
      var r := Elements(e[p + 1..], n + |here|);
      if r.Ports? { assert before + (here + r.ports) == before + here + r.ports; }
    }
  }

  /** getpts, without its memory of the last call. */
  method ParseList(origexpr: string) returns (r: Listing)
    ensures r == GetPts(origexpr)
  {
    hide Bounds, Stored, Position, TcpPart, Stripped, Elements, Range, Sorted;
    var text := new char[|origexpr|](i requires 0 <= i < |origexpr| => origexpr[i]);
    assert text[..] == origexpr;
    var n := StripInPlace(text);
    var expr := TcpPart(text[..n]);
    var ports := new nat[MAX_PORTS + 1](_ => 0);
    var i: nat := 0;
    ghost var all := Elements(expr, 0);
    NothingBefore(all);
    while true
      invariant i <= MAX_PORTS && all == Following(ports[..i], Elements(expr, i))
      decreases |expr|
    {
      var p := Position(expr, ',');
      var (start, end) := Bounds(expr[..p]);
      ElementsStep(expr, i, ports[..i]);
      if start > end { return Malformed; }
      if i + (end - start + 1) > MAX_PORTS { return TooMany; }
      i := Fill(ports, i, start, end);
      if p == |expr| { break; }
      expr := expr[p + 1..];
    }
    assert all == Ports(ports[..i]);
    ghost var listed := ports[..i];
    ports[i] := 0;
    i := i + 1;
    assert ports[..i] == listed + [0];
    return Ports(Sorted(ports[..i]));
  }

  lemma NothingBefore(r: Listing)
    ensures Following([], r) == r
  {
    if r.Ports? { assert [] + r.ports == r.ports; }
  }

  lemma MarksStep(s: string, done: seq<int>)
    requires s != ""
    ensures match NextElement(s)
            case Over => After(done, Marks(s)) == Marked(done)
            case Failed(why) => !Marks(s).Marked?
            case Ranging(lo, hi, rest) =>
              if lo <= hi && (lo < 0 || hi >= PORTS) then Marks(s) == OutOfRange
              else After(done, Marks(s)) == After(done + Range(lo, hi), Marks(rest))
  {
    hide NextElement, Range;
    match NextElement(s)
    case Over => assert done + [] == done;
    case Failed(why) =>
    case Ranging(lo, hi, rest) =>
      if Marks(rest).Marked? {
        assert done + (Range(lo, hi) + Marks(rest).ports) == done + Range(lo, hi) + Marks(rest).ports;
      }
  }

  /** The scanner's parser: the port table and the number of ports to test. */
  method MarkPorts(portrange: string) returns (ok: bool, states: seq<PortState>, untested: nat)
    ensures ok <==> Marks(portrange).Marked?
    ensures ok ==> var ports := Marks(portrange).ports;
              InTable(ports) && states == Table(ports) && untested == |ports|
  {
    hide NextElement, Table, Marks, Range, InTable;
    var table := new PortState[PORTS](_ => NotTested);
    ghost var done: seq<int> := [];
    var s := portrange;
    untested := 0;
    EmptyTable(table[..], Marks(s));
    while s != ""
      invariant InTable(done) && table[..] == Table(done) && untested == |done|
      invariant Marks(portrange) == After(done, Marks(s))
      decreases |s|
    {
      MarksStep(s, done);
      match NextElement(s) {
        case Over => return true, table[..], untested;
        case Failed(why) => return false, table[..], untested;
        case Ranging(lo, hi, rest) =>
          if lo <= hi && (lo < 0 || hi >= PORTS) { return false, table[..], untested; }
          untested := MarkRange(table, lo, hi, done, untested);
          done := done + Range(lo, hi);
          s := rest;
      }
    }
    NoMarksLeft(done);
    return true, table[..], untested;
  }

  lemma EmptyTable(t: seq<PortState>, r: Marking)
    requires |t| == PORTS && forall i | 0 <= i < PORTS :: t[i] == NotTested
    ensures InTable([]) && t == Table([]) && After([], r) == r
  {
    if r.Marked? { assert [] + r.ports == r.ports; }
  }

  lemma NoMarksLeft(done: seq<int>)
    ensures After(done, Marks("")) == Marked(done)
  {
    assert done + [] == done;
  }

  function After(before: seq<int>, r: Marking): Marking {
    match r
    case Marked(ports) => Marked(before + ports)
    case other => other
  }

  method MarkRange(table: array<PortState>, lo: int, hi: int, ghost done: seq<int>, count: nat) returns (untested: nat)
    requires InTable(done) && table[..] == Table(done) && count == |done|
    requires table.Length == PORTS && (lo <= hi ==> 0 <= lo && hi < PORTS)
    modifies table
    ensures InTable(done + Range(lo, hi)) && table[..] == Table(done + Range(lo, hi))
    ensures untested == |done + Range(lo, hi)|
  {
    hide Table;
    untested := count;
    var i := lo;
    ghost var marked := done;
    assert done + Range(lo, lo - 1) == done;
    while i <= hi
      invariant lo <= i && (if lo <= hi then i <= hi + 1 else i == lo) && marked == done + Range(lo, i - 1)
      invariant InTable(marked) && table[..] == Table(marked) && untested == |marked|
    {
      marked := marked + [i];
      assert marked[..|marked| - 1] == done + Range(lo, i - 1);
      TableNext(marked);
      table[i] := Unknown;
      untested := untested + 1;
      i := i + 1;
    }
    assert marked == done + Range(lo, hi);
  }
}
