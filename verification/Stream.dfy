/** Buffered reading from a connection: a resizable buffer over an unreliable
    source behaves as a plain queue of bytes. */
module Stream {
  import opened Bytes
  import opened Sequences

  const NUL: byte := 0
  const NEWLINE: byte := 10

  /** How many bytes the transport delivers to the nth request for `min` to `max` bytes. */
  type Transport = (nat, int, int) -> int

  /** A transport that delivers at least one byte whenever one is there to deliver. */
  ghost predicate Supplying(t: Transport) {
    forall k: nat, min: int, max: int :: t(k, min, max) >= 1
  }

  /** One that also delivers the minimum asked for, as far as it is there. */
  ghost predicate Obliging(t: Transport) {
    Supplying(t) && forall k: nat, min: int, max: int :: t(k, min, max) >= min
  }

  function Lesser(a: int, b: int): int { if a < b then a else b }

  function AtLeastOne(n: nat): nat { if n == 0 then 1 else n }

  function Size(n: int): nat { if n > 0 then n else 0 }

  predicate Ends(b: byte) { b == NUL || b == NEWLINE }

  /** Length of the first line of `s`, its terminator included, cut at `limit` bytes. */
  function LineLength(s: seq<byte>, limit: nat): (n: nat)
    ensures n <= limit && n <= |s|
  {
    if limit == 0 || s == [] then 0
    else if Ends(s[0]) then 1
    else 1 + LineLength(s[1..], limit - 1)
  }

  /** A line ends at its first zero byte or newline, at the limit or with the stream, and nowhere else. */
  lemma {:induction false} LineEnds(s: seq<byte>, limit: nat)
    ensures var n := LineLength(s, limit);
      && (forall i | 0 <= i < n - 1 :: s[i] != 0 && s[i] != 10)
      && (n < limit && n < |s| ==> n > 0 && (s[n - 1] == 0 || s[n - 1] == 10))
  {
    if limit > 0 && s != [] && !Ends(s[0]) {
      LineEnds(s[1..], limit - 1);
      var n := LineLength(s, limit);
      assert forall i | 1 <= i < n :: s[i] == s[1..][i - 1];
    }
  }

  lemma LineStep(s: seq<byte>, limit: nat)
    ensures LineLength(s, limit) ==
            if limit == 0 || s == [] then 0 else if Ends(s[0]) then 1 else 1 + LineLength(s[1..], limit - 1)
  {
  }

  /** `line` was taken off `all`, with terminators at its end only; `whole` means all of the line. */
  ghost predicate Taken(all: seq<byte>, line: seq<byte>, unread: seq<byte>, limit: nat, whole: bool) {
    && |line| <= limit && |line| <= |all| && line == all[..|line|] && unread == all[|line|..]
    && (forall i | 0 <= i < |line| - 1 :: !Ends(line[i]))
    && (whole ==> |line| == LineLength(all, limit))
  }

  /** A line under way. */
  ghost predicate Reading(all: seq<byte>, line: seq<byte>, unread: seq<byte>, limit: nat) {
    && |line| < limit && |line| <= |all| && line == all[..|line|] && unread == all[|line|..]
    && (forall i | 0 <= i < |line| :: !Ends(line[i]))
    && LineLength(all, limit) == |line| + LineLength(unread, limit - |line|)
  }

  lemma ReadOn(all: seq<byte>, line: seq<byte>, unread: seq<byte>, limit: nat)
    requires Reading(all, line, unread, limit) && unread != []
    ensures var b, more := unread[0], line + [unread[0]];
            if Ends(b) || |more| == limit then Taken(all, more, unread[1..], limit, true)
            else Reading(all, more, unread[1..], limit)
  {
    hide LineLength;
    var k := |line|;
    LineStep(unread, limit - k);
    LineStep(unread[1..], 0);
    assert all[k..][1..] == all[k + 1..] && all[..k] + [all[k]] == all[..k + 1];
  }

  lemma Begin(all: seq<byte>, limit: nat)
    requires limit > 0
    ensures Reading(all, [], all, limit)
  {
  }

  lemma Partly(all: seq<byte>, line: seq<byte>, unread: seq<byte>, limit: nat, whole: bool)
    requires || Taken(all, line, unread, limit, true)
             || (Taken(all, line, unread, limit, unread == []) && (whole ==> unread == []))
    ensures Taken(all, line, unread, limit, whole)
  {
  }

  lemma ReadStops(all: seq<byte>, line: seq<byte>, unread: seq<byte>, limit: nat)
    requires Reading(all, line, unread, limit)
    ensures Taken(all, line, unread, limit, unread == [])
  {
  }

  lemma Slices(b: array<byte>, p: nat, n: nat, c: nat)
    requires n <= c && p + c <= b.Length
    ensures b[p..p + n] + b[p + n..p + c] == b[p..p + c]
    ensures n == c ==> b[p..p + n] + b[0..0] == b[p..p + c]
  {
  }

  class Connection {
    const transport: Transport
    var source: seq<byte>
    var asked: nat

    var buf: array?<byte>
    var bufsz: int
    var bufcnt: int
    var bufptr: int

    constructor (transport: Transport, source: seq<byte>)
      ensures Valid() && buf == null && Unread() == source && this.transport == transport
    {
      this.transport, this.source, asked := transport, source, 0;
      buf, bufsz, bufcnt, bufptr := null, 0, 0, 0;
    }

    ghost predicate Valid()
      reads this
    {
      if buf == null then bufsz == bufcnt == bufptr == 0
      else
        && buf.Length == bufsz > 0
        && 0 <= bufptr && 0 <= bufcnt && bufptr + bufcnt <= bufsz
        && (bufcnt == 0 ==> bufptr == 0)
    }

    ghost function Buffered(): seq<byte>
      requires Valid()
      reads this, buf
    {
      if buf == null then [] else buf[bufptr..bufptr + bufcnt]
    }

    /** Everything the caller has not been given yet, in order. */
    ghost function Unread(): seq<byte>
      requires Valid()
      reads this, buf
    {
      Buffered() + source
    }

    /** read_stream_connection_unbuffered: the next bytes of the source, at most `max`;
        `ok` is false for the error return. */
    method ReadUnbuffered(min: int, max: int) returns (ok: bool, data: seq<byte>)
      modifies `source, `asked
      ensures asked == old(asked) + 1
      ensures old(source) == data + source && |data| <= Size(max)
      ensures !ok <==> Lesser(Lesser(old(transport(asked, min, max)), max), |old(source)|) < 0
      ensures data != [] <==> old(transport(asked, min, max)) > 0 && max > 0 && old(source) != []
      ensures |data| == Size(Lesser(Lesser(old(transport(asked, min, max)), max), |old(source)|))
      ensures Supplying(transport) && max > 0 && old(source) != [] ==> data != []
      ensures Obliging(transport) ==> |data| >= Lesser(Lesser(min, max), |old(source)|)
    {
      var n := transport(asked, min, max);
      asked := asked + 1;
      if n > max { n := max; }
      if n > |source| { n := |source|; }
      if n <= 0 { return n == 0, []; }
      data := source[..n];
      source := source[n..];
      ok := true;
    }

    /** Copies `n` bytes at the read position out of the buffer. */
    method Take(n: nat) returns (data: seq<byte>)
      requires buf != null && n <= bufcnt && 0 <= bufptr && bufptr + n <= buf.Length
      modifies `bufcnt, `bufptr
      ensures data == buf[old(bufptr)..old(bufptr) + n]
      ensures bufcnt == old(bufcnt) - n && bufptr == if bufcnt == 0 then 0 else old(bufptr) + n
      ensures old(Valid()) ==> Valid() && data + Buffered() == old(Buffered())
    {
      data := buf[bufptr..bufptr + n];
      if Valid() { Slices(buf, bufptr, n, bufcnt); }
      bufcnt := bufcnt - n;
      if bufcnt == 0 { bufptr := 0; } else { bufptr := bufptr + n; }
    }

    /** Fills the buffer from the source, over whatever it held. */
    method Fill(min: int) returns (got: bool)
      requires Valid() && buf != null
      modifies `source, `asked, `bufcnt, buf
      ensures got <==> source != old(source)
      ensures got <==> old(transport(asked, min, bufsz)) > 0 && old(source) != []
      ensures !got ==> Valid() && Unread() == old(Unread())
      ensures got ==> 0 < bufcnt <= bufsz && bufcnt + |source| == |old(source)|
      ensures got ==> bufcnt == Lesser(Lesser(old(transport(asked, min, bufsz)), bufsz), |old(source)|)
      ensures got && old(bufcnt) == 0 ==> Valid() && Unread() == old(Unread())
    {
      var ok, bytes := ReadUnbuffered(min, bufsz);
      got := bytes != [];
      if got {
        assert old(bufcnt) == 0 ==> old(Unread()) == bytes + source;
        Overwrite(bytes);
        bufcnt := |bytes|;
        assert bufptr == 0 ==> Buffered() == bytes;
      } else {
        assert source == old(source);
      }
    }

    /** Puts `bytes` at the start of the buffer. */
    method Overwrite(bytes: seq<byte>)
      requires buf != null && |bytes| <= buf.Length
      modifies buf
      ensures buf[..|bytes|] == bytes
    {
      forall k | 0 <= k < |bytes| { buf[k] := bytes[k]; }
    }

    /** The source has bytes and gives some of them to a full read. */
    predicate Gives(min: int)
      reads this
    {
      source != [] && transport(asked, min, bufsz) > 0
    }

    /** A read that offers no room for a byte while the buffer holds some: the source, if it gives
        any, is read over them. */
    predicate Loses(min: int, max: nat)
      reads this
    {
      max == 0 && bufcnt > 0 && min <= bufsz && Gives(min)
    }

    /** Fills the buffer, then takes up to `max` bytes of it.  Data still buffered, which the
        caller leaves there only with `max` zero, is lost. */
    method Refill(min: int, max: nat) returns (data: seq<byte>)
      requires Valid() && buf != null && (bufcnt == 0 || max == 0)
      modifies `source, `asked, `bufcnt, `bufptr, buf
      ensures |data| <= max
      ensures if old(bufcnt) == 0 || !old(Gives(min))
              then Delivered(data, old(Unread()))
              else data == [] && bufcnt + |source| == |old(source)|
      ensures max == 0 && old(Gives(min)) ==> 0 < bufcnt <= bufsz
      ensures Supplying(transport) && max > 0 && old(source) != [] ==> data != []
      ensures Obliging(transport) && min <= bufsz ==> |data| >= Lesser(Lesser(min, max), |old(source)|)
    {
      var got := Fill(min);
      data := [];
      if got {
        data := Take(if max > bufcnt then bufcnt else max);
        if old(bufcnt) == 0 { Associate(data, Buffered(), source); }
      }
    }

    /** The second half of a read, once the buffer is drained. */
    method ReadRest(min: int, max: nat) returns (data: seq<byte>)
      requires Valid() && buf != null && (bufcnt == 0 || max == 0)
      modifies `source, `asked, `bufcnt, `bufptr, buf
      ensures |data| <= max
      ensures if old(Loses(min, max)) then data == [] && bufcnt + |source| == |old(source)|
              else Delivered(data, old(Unread()))
      ensures max == 0 && min <= bufsz && old(Gives(min)) ==> 0 < bufcnt <= bufsz
      ensures Supplying(transport) && max > 0 && old(source) != [] ==> data != []
      ensures Obliging(transport) ==> |data| >= Lesser(Lesser(min, max), |old(source)|)
    {
      if min > bufsz {
        var ok;
        ok, data := ReadUnbuffered(min, max);
        assert Buffered() == old(Buffered());
        if bufcnt == 0 {
          assert Unread() == source && old(Unread()) == old(source);
        } else {
          assert source == old(source) && Unread() == old(Unread());
        }
      } else {
        data := Refill(min, max);
      }
    }

    /** read_stream_connection_min.  The bytes delivered and the bytes still unread are always
        the bytes that were unread before, except when the read loses bytes. */
    method ReadMin(min0: int, max0: nat) returns (ok: bool, data: seq<byte>)
      requires Valid()
      modifies `source, `asked, `bufcnt, `bufptr, buf
      ensures |data| <= max0
      ensures Delivered(data, old(Unread())) <==> !old(Loses(min0, max0))
      ensures old(Loses(min0, max0)) ==> data == [] && bufcnt + |source| == |old(source)|
      ensures max0 == 0 && buf != null && min0 <= bufsz && old(Gives(min0)) ==> 0 < bufcnt <= bufsz
      ensures Supplying(transport) && max0 > 0 && old(Unread()) != [] ==> data != []
      ensures buf != null ==> |data| >= Lesser(max0, old(bufcnt))
      ensures buf != null && old(bufcnt) > 0 && (old(bufcnt) >= min0 || old(bufcnt) >= max0) ==>
        |data| == Lesser(max0, old(bufcnt))
      ensures Obliging(transport) ==> |data| >= Lesser(Lesser(min0, max0), |old(Unread())|)
      ensures ok <==> buf != null || old(transport(asked, min0, max0)) >= 0
    {
      hide Obliging, Supplying;
      if buf == null {
        ok, data := ReadUnbuffered(min0, max0);
        return;
      }
      ok := true;
      if max0 == 0 || bufcnt == 0 {
        data := ReadRest(if max0 == 1 then 1 else min0, max0);
        assert Valid() ==> |data + Unread()| == |data| + bufcnt + |source|;
        return;
      }
      ghost var all := Unread();
      data := Take(if max0 > bufcnt then bufcnt else max0);
      Associate(data, Buffered(), source);
      if |data| >= (if max0 == 1 then 1 else min0) || |data| >= max0 { return; }
      ghost var rest := Unread();
      var tail := ReadRest(min0 - |data|, max0 - |data|);
      Associate(data, tail, Unread());
      data := data + tail;
    }

    ghost predicate Delivered(bytes: seq<byte>, all: seq<byte>)
      reads this, buf
    {
      Valid() && bytes + Unread() == all
    }

    /** stream_set_buffer: resizes the buffer without losing data; false if `sz` is too small. */
    method SetBuffer(sz: int) returns (ok: bool)
      requires Valid()
      modifies `buf, `bufsz, `bufptr, `bufcnt, buf
      ensures ok <==> sz >= old(bufcnt)
      ensures Valid() && Unread() == old(Unread()) && (buf == old(buf) || buf == null || fresh(buf))
      ensures ok ==> bufsz == sz
      ensures !ok ==> buf == old(buf) && bufsz == old(bufsz)
    {
      if sz < bufcnt { return false; }
      if sz == 0 {
        buf, bufsz := null, 0;
        return true;
      }
      var b := Moved(sz);
      if bufcnt > 0 { bufptr := 0; }
      buf, bufsz := b, sz;
      return true;
    }

    /** A new buffer with the bytes still buffered at its start. */
    method Moved(sz: nat) returns (b: array<byte>)
      requires Valid() && bufcnt <= sz
      ensures fresh(b) && b.Length == sz && b[..bufcnt] == Buffered()
    {
      b := new byte[sz](_ => 0);
      if buf != null {
        forall k | 0 <= k < bufcnt { b[k] := buf[bufptr + k]; }
        assert b[..bufcnt] == buf[bufptr..bufptr + bufcnt];
      }
    }

    /** The next byte of the stream, if there is one to be had. */
    method ReadByte() returns (ok: bool, b: seq<byte>)
      requires Valid()
      modifies `source, `asked, `bufcnt, `bufptr, buf
      ensures Valid() && |b| <= 1
      ensures b == [] ==> Unread() == old(Unread())
      ensures b != [] ==> old(Unread()) != [] && old(Unread())[0] == b[0] && old(Unread())[1..] == Unread()
      ensures Supplying(transport) && old(Unread()) != [] ==> b != []
      ensures ok <==> buf != null || old(transport(asked, 1, 1)) >= 0
    {
      hide Unread, Valid;
      ok, b := ReadMin(1, 1);
      assert b + Unread() == old(Unread());
    }

    /** recv_line: one byte at a time up to a terminator, at most `bufsiz` but always one; the result
        is what was taken off the stream. */
    method RecvLine(bufsiz: nat) returns (ok: bool, line: seq<byte>)
      requires Valid()
      modifies `source, `asked, `bufcnt, `bufptr, buf
      ensures Valid() && Taken(old(Unread()), line, Unread(), AtLeastOne(bufsiz), Supplying(transport))
      ensures buf != null || line != [] ==> ok
    {
      hide Unread, Valid, Supplying, Taken, Reading;
      ghost var all, limit := Unread(), AtLeastOne(bufsiz);
      line := [];
      Begin(all, limit);
      while true
        invariant Valid() && Reading(all, line, Unread(), limit) && |line| < limit
        decreases limit - |line|
      {
        ghost var rest := Unread();
        ReadStops(all, line, rest, limit);
        var more, b := ReadByte();
        if b == [] {
          assert Taken(all, line, rest, limit, Supplying(transport)) by {
            Partly(all, line, rest, limit, Supplying(transport));
          }
          return more || line != [], line;
        }
        ReadOn(all, line, rest, limit);
        assert b == [rest[0]];
        line := line + b;
        if Ends(b[0]) || |line| >= bufsiz {
          Partly(all, line, Unread(), limit, Supplying(transport));
          return true, line;
        }
      }
    }

    predicate Losing(op: Op)
      reads this
    {
      op.Read? && Loses(op.min, op.max)
    }

    method Step(op: Op) returns (data: seq<byte>)
      requires Valid() && !Losing(op)
      modifies this, buf
      ensures Valid() && data + Unread() == old(Unread()) && (buf == old(buf) || buf == null || fresh(buf))
      ensures Supplying(transport) ==> Amount(op, old(Unread()), |data|, Obliging(transport))
      ensures bufsz == if op.Resize? && op.sz >= old(bufcnt) then op.sz else old(bufsz)
    {
      hide Unread, Valid, Supplying, Obliging;
      var ok;
      match op
      case Read(min, max) => ok, data := ReadMin(min, max);
      case Line(limit) =>
        ok, data := RecvLine(limit);
        assert data + Unread() == old(Unread());
      case Resize(sz) =>
        ok := SetBuffer(sz);
        data := [];
        assert data + Unread() == Unread();
    }
  }

  datatype Op = Read(min: int, max: nat) | Line(bufsiz: nat) | Resize(sz: int)

  /** How many bytes an operation takes off a supplying stream: a line is a line whatever the buffer, and
      an `obliging` stream gives a read the minimum it asked for. */
  predicate Amount(op: Op, unread: seq<byte>, n: nat, obliging: bool) {
    match op
    case Read(min, max) =>
      && n <= max && (unread != [] && max > 0 ==> n > 0)
      && (obliging ==> n >= Lesser(Lesser(min, max), |unread|))
    case Line(bufsiz) => n == LineLength(unread, AtLeastOne(bufsiz))
    case Resize(_) => n == 0
  }

  /** Any interleaving of reads, line reads and resizes hands out the stream in order, losing and
      repeating nothing, up to the first read that loses bytes. */
  method Run(c: Connection, ops: seq<Op>) returns (parts: seq<seq<byte>>)
    requires c.Valid()
    modifies c, c.buf
    ensures c.Valid() && |parts| <= |ops| && Joined(parts) + c.Unread() == old(c.Unread())
    ensures |parts| < |ops| ==> c.Losing(ops[|parts|])
    ensures Supplying(c.transport) ==> Amounts(ops[..|parts|], old(c.Unread()), parts, Obliging(c.transport))
  {
    hide Connection.Unread, Connection.Valid, Supplying, Obliging, Amount;
    parts := [];
    ghost var all := c.Unread();
    for i := 0 to |ops|
      invariant c.Valid() && |parts| == i && Joined(parts) + c.Unread() == all
      invariant c.buf == old(c.buf) || c.buf == null || fresh(c.buf)
      invariant Supplying(c.transport) ==> Amounts(ops[..i], all, parts, Obliging(c.transport))
    {
      if c.Losing(ops[i]) { return; }
      ghost var before, rest := parts, c.Unread();
      assert all[|Joined(parts)|..] == rest;
      var data := c.Step(ops[i]);
      Associate(Joined(parts), data, c.Unread());
      parts := parts + [data];
      assert parts[..i] == before;
      if Supplying(c.transport) { OneMore(ops, all, parts, i, Obliging(c.transport)); }
    }
  }

  /** Every operation took as much as its kind takes off what was left. */
  ghost predicate Amounts(ops: seq<Op>, all: seq<byte>, parts: seq<seq<byte>>, obliging: bool) {
    |parts| == |ops| &&
    forall i | 0 <= i < |ops| ::
      |Joined(parts[..i])| <= |all| && Amount(ops[i], all[|Joined(parts[..i])|..], |parts[i]|, obliging)
  }

  lemma OneMore(ops: seq<Op>, all: seq<byte>, parts: seq<seq<byte>>, i: nat, obliging: bool)
    requires i < |ops| && |parts| == i + 1 && Amounts(ops[..i], all, parts[..i], obliging)
    requires |Joined(parts[..i])| <= |all| && Amount(ops[i], all[|Joined(parts[..i])|..], |parts[i]|, obliging)
    ensures Amounts(ops[..i + 1], all, parts, obliging)
  {
    hide Amount, Joined;
    forall k | 0 <= k < i + 1
      ensures |Joined(parts[..k])| <= |all|
      ensures Amount(ops[..i + 1][k], all[|Joined(parts[..k])|..], |parts[k]|, obliging)
    {
      if k < i {
        assert parts[..i][..k] == parts[..k] && ops[..i][k] == ops[k];
      }
    }
  }

  /** The same from a fresh connection; only a read that offers no room can lose bytes. */
  method Replay(transport: Transport, stream: seq<byte>, ops: seq<Op>) returns (parts: seq<seq<byte>>)
    ensures |parts| <= |ops| && Joined(parts) <= stream
    ensures |parts| < |ops| ==> ops[|parts|].Read? && ops[|parts|].max == 0
    ensures Supplying(transport) ==> Amounts(ops[..|parts|], stream, parts, Obliging(transport))
  {
    hide Supplying, Obliging, Amounts;
    var c := new Connection(transport, stream);
    parts := Run(c, ops);
  }

  /** Such a read after another that has filled a buffer of one byte: of a stream of two bytes one is gone,
      and none was handed out. */
  method LoseByte() returns (stream: seq<byte>, first: seq<byte>, second: seq<byte>, left: int)
    ensures |stream| == 2 && first == second == [] && left == 1
  {
    stream := [1, 2];
    var c := new Connection((_, _, _) => 1, stream);
    var ok := c.SetBuffer(1);
    assert c.source == c.Unread()[|c.Buffered()|..];
    ok, first := c.ReadMin(0, 0);
    assert |c.Unread()| == c.bufcnt + |c.source| == 2;
    ok, second := c.ReadMin(0, 0);
    left := c.bufcnt + |c.source|;
  }
}
