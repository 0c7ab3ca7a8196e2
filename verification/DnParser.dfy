/** The parser that finds the common name in a distinguished name written as RFC 2253 has it.
    A C string is the sequence of its characters before the terminator. */
module DnParser {
  import opened Options
  import opened Sequences

  predicate Terminated(s: string) { '\0' !in s }

  /** The character at `i`; nothing after the terminator is ever read. */
  function At(s: string, i: nat): char
    requires i <= |s|
  {
    if i < |s| then s[i] else '\0'
  }

  predicate IsHex(c: char) { '0' <= c <= '9' || 'A' <= c <= 'F' || 'a' <= c <= 'f' }

  function HexDigit(c: char): (n: nat)
    requires IsHex(c)
    ensures n < 16
  {
    if c <= '9' then c as int - '0' as int
    else if c <= 'F' then c as int - 'A' as int + 10
    else c as int - 'a' as int + 10
  }

  /** The byte written by two hexadecimal digits; a zero byte is replaced by one. */
  function HexByte(h: char, l: char): char
    requires IsHex(h) && IsHex(l)
  {
    var n := 16 * HexDigit(h) + HexDigit(l);
    if n == 0 then 1 as char else n as char
  }

  /** What may follow a backslash as itself. */
  predicate Quotable(c: char) {
    || c == ',' || c == '=' || c == '+' || c == '<' || c == '>'
    || c == '#' || c == ';' || c == '\\' || c == '\"' || c == ' '
  }

  /** What ends a value. */
  predicate Ending(c: char) { c == ',' || c == '=' || c == '+' || c == '<' || c == '>' || c == ';' }

  /** Two digits, in either case, read as the number they write, but zero as one. */
  lemma HexWritten(a: nat, b: nat, upper: bool)
    requires a < 16 && b < 16
    ensures var digits := if upper then "0123456789ABCDEF" else "0123456789abcdef";
            && IsHex(digits[a]) && IsHex(digits[b])
            && HexByte(digits[a], digits[b]) == if a == b == 0 then 1 as char else (16 * a + b) as char
  {
    HexRead(a, upper);
    HexRead(b, upper);
  }

  lemma HexRead(a: nat, upper: bool)
    requires a < 16
    ensures var c := (if upper then "0123456789ABCDEF" else "0123456789abcdef")[a]; IsHex(c) && HexDigit(c) == a
  {
  }

  // ----- the two passes over a value -----

  /** The counting pass: the number of characters the value has, and the text after it. */
  function Scan(t: string): (r: Option<(nat, string)>)
    ensures r.Some? ==> |r.value.1| <= |t| && (r.value.1 == "" || Ending(r.value.1[0]))
  {
    if t == "" || Ending(t[0]) then Some((0, t))
    else if t[0] == '\\' then
      if |t| >= 2 && Quotable(t[1]) then More(Scan(t[2..]))
      else if |t| >= 3 && IsHex(t[1]) && IsHex(t[2]) then More(Scan(t[3..]))
      else None
    else if t[0] == '\"' then None
    else More(Scan(t[1..]))
  }

  function More(r: Option<(nat, string)>): Option<(nat, string)> {
    match r
    case None => None
    case Some((n, rest)) => Some((n + 1, rest))
  }

  // ----- printed names -----

  /** One character of a value as it is printed. */
  datatype Unit = Raw(c: char) | Pair(c: char) | Hex(h: char, l: char)

  function UnitText(u: Unit): string {
    match u
    case Raw(c) => [c]
    case Pair(c) => ['\\', c]
    case Hex(h, l) => ['\\', h, l]
  }

  /** Section 2.4 lets '=' stand for itself, as it does every character not listed there. */
  predicate Allowed(u: Unit) {
    match u
    case Raw(c) => c != '\0' && c != '\\' && c != '\"' && (c == '=' || !Ending(c))
    case Pair(c) => Quotable(c)
    case Hex(h, l) => IsHex(h) && IsHex(l)
  }

  function UnitValue(u: Unit): char
    requires Allowed(u)
  {
    match u
    case Raw(c) => c
    case Pair(c) => c
    case Hex(h, l) => HexByte(h, l)
  }

  function Text(us: seq<Unit>): string {
    if us == [] then "" else UnitText(us[0]) + Text(us[1..])
  }

  predicate AllAllowed(us: seq<Unit>) { forall u | u in us :: Allowed(u) }

  function Value(us: seq<Unit>): (v: string)
    requires AllAllowed(us)
    ensures |v| == |us|
  {
    if us == [] then "" else
      assert us[0] in us;
      [UnitValue(us[0])] + Value(us[1..])
  }

  /** No unescaped '='. */
  predicate Clean(us: seq<Unit>) { Raw('=') !in us }

  /** The copying pass: `n` characters of the value, and the text after them. */
  function Copy(t: string, n: nat): (r: (string, string))
    ensures |r.1| <= |t|
    decreases n
  {
    if n == 0 || t == "" then ("", t)
    else if t[0] == '\\' then
      if |t| >= 3 && IsHex(t[1]) && IsHex(t[2]) then Prepend(HexByte(t[1], t[2]), Copy(t[3..], n - 1))
      else if |t| >= 2 then Prepend(t[1], Copy(t[2..], n - 1))
      else ("", t)
    else Prepend(t[0], Copy(t[1..], n - 1))
  }

  function Prepend(c: char, r: (string, string)): (string, string) { ([c] + r.0, r.1) }

  // ----- the passes on printed text -----

  lemma QuotableNotHex(c: char)
    requires Quotable(c)
    ensures !IsHex(c)
  {
  }

  /** One printed character. */
  lemma ScanUnit(u: Unit, t: string)
    requires Allowed(u) && u != Raw('=')
    ensures Scan(UnitText(u) + t) == More(Scan(t))
    ensures forall n: nat :: Copy(UnitText(u) + t, n + 1) == Prepend(UnitValue(u), Copy(t, n))
  {
    var s := UnitText(u) + t;
    assert s[|UnitText(u)|..] == t;
    match u
    case Raw(c) => assert s[0] == c;
    case Pair(c) => QuotableNotHex(c); assert s[0] == '\\' && s[1] == c;
    case Hex(h, l) => assert s[0] == '\\' && s[1] == h && s[2] == l;
      if Quotable(h) { QuotableNotHex(h); }
  }

  /** The characters a backslash takes as they are. */
  lemma Quoted(c: char, t: string)
    ensures c in ",=+<>#;\\\" " ==> Scan(['\\', c] + t) == More(Scan(t)) && forall n: nat ::
              Copy(['\\', c] + t, n + 1) == Prepend(c, Copy(t, n))
    ensures c !in ",=+<>#;\\\" " && !IsHex(c) ==> Scan(['\\', c] + t).None?
  {
    var s := ['\\', c] + t;
    assert s[0] == '\\' && s[1] == c && s[2..] == t;
  }

  /** The characters that end a value, and those that do not. */
  lemma Ended(c: char, t: string)
    ensures c in ",=+<>;" ==> Scan([c] + t) == Some((0, [c] + t))
    ensures c !in ",=+<>;\\\"" ==> Scan([c] + t) == More(Scan(t))
    ensures c == '\"' ==> Scan([c] + t).None?
  {
    assert ([c] + t)[1..] == t;
  }

  lemma NothingLeft(t: string)
    requires t == "" || Ending(t[0])
    ensures Scan(t) == Some((0, t)) && Copy(t, 0) == ("", t)
  {
  }

  /** Both passes read back what was printed, up to the end of the part. */
  lemma {:induction false} PassesReadBack(us: seq<Unit>, t: string)
    requires AllAllowed(us) && Clean(us) && (t == "" || Ending(t[0]))
    ensures Scan(Text(us) + t) == Some((|us|, t))
    ensures Copy(Text(us) + t, |us|) == (Value(us), t)
  {
    hide Allowed, UnitText, UnitValue, Scan, Copy, Ending;
    if us == [] {
      assert Text(us) + t == t;
      NothingLeft(t);
    } else {
      assert us[0] in us && forall u | u in us[1..] :: u in us;
      PassesReadBack(us[1..], t);
      ScanUnit(us[0], Text(us[1..]) + t);
      assert Text(us) + t == UnitText(us[0]) + (Text(us[1..]) + t);
    }
  }

  lemma FirstUnit(t: string) returns (u: Unit)
    requires Scan(t).Some? && Terminated(t) && t != "" && !Ending(t[0])
    ensures Allowed(u) && u != Raw('=') && |UnitText(u)| <= |t| && t == UnitText(u) + t[|UnitText(u)|..]
  {
    assert t[0] in t;
    u := if t[0] != '\\' then Raw(t[0]) else if Quotable(t[1]) then Pair(t[1]) else Hex(t[1], t[2]);
  }

  /** The counting pass accepts printed text only. */
  lemma {:induction false} AcceptsPrinted(t: string) returns (us: seq<Unit>)
    requires Scan(t).Some? && Terminated(t)
    ensures AllAllowed(us) && Clean(us) && |us| == Scan(t).value.0 && t == Text(us) + Scan(t).value.1
    decreases |t|
  {
    hide Ending, Allowed, UnitText, Scan, Text, AllAllowed, Clean, Copy;
    if t == "" || Ending(t[0]) {
      us := [];
      NothingLeft(t);
      NoUnits();
    } else {
      var u := FirstUnit(t);
      var rest := t[|UnitText(u)|..];
      ScanUnit(u, rest);
      RestTerminated(t, |UnitText(u)|);
      var vs := AcceptsPrinted(rest);
      us := [u] + vs;
      OneMore(u, vs);
      Associate(UnitText(u), Text(vs), Scan(rest).value.1);
    }
  }

  lemma NoUnits()
    ensures AllAllowed([]) && Clean([]) && Text([]) == ""
  {
  }

  lemma OneMore(u: Unit, vs: seq<Unit>)
    requires Allowed(u) && u != Raw('=') && AllAllowed(vs) && Clean(vs)
    ensures AllAllowed([u] + vs) && Clean([u] + vs) && Text([u] + vs) == UnitText(u) + Text(vs)
    ensures |UnitText(u)| > 0
  {
    assert ([u] + vs)[1..] == vs;
  }

  lemma RestTerminated(t: string, k: nat)
    requires Terminated(t) && k <= |t|
    ensures Terminated(t[k..])
  {
  }

  /** Whatever the counting pass accepts, the copying pass ends at the same place with that many characters. */
  lemma PassesAgree(t: string)
    requires Scan(t).Some? && Terminated(t)
    ensures var (n, rest) := Scan(t).value; |Copy(t, n).0| == n && Copy(t, n).1 == rest
  {
    hide Copy, Ending;
    var us := AcceptsPrinted(t);
    PassesReadBack(us, Scan(t).value.1);
  }

  // ----- one part -----

  datatype Part =
    | Malformed
    | HexForm                                         // value given as '#' and digits
    | Parsed(rest: string, value: Option<string>)     // with the value if it is a common name

  /** Where the attribute type ends: the first '=' from position `k` on. */
  function KeyEnd(t: string, k: nat): (e: nat)
    requires k <= |t|
    ensures k <= e <= |t| && '=' !in t[k..e] && (e < |t| ==> t[e] == '=')
    decreases |t| - k
  {
    if k == |t| || t[k] == '=' then k else KeyEnd(t, k + 1)
  }

  function ParsePart(t: string): (r: Part)
    requires t != ""
    ensures r.Parsed? ==> |r.rest| < |t|
  {
    var k := KeyEnd(t, 1);
    if k == |t| then Malformed else
      var v := t[k + 1..];
      if v != "" && v[0] == '#' then HexForm else
        match Scan(v)
        case None => Malformed
        case Some((n, _)) =>
          var (value, rest) := Copy(v, n);
          Parsed(rest, if t[..k] == "CN" then Some(value) else None)
  }

  // ----- the whole name -----

  datatype Outcome = CommonName(value: string) | Null | Unmodelled

  function SkipSpaces(t: string): (r: string)
    ensures |r| <= |t| && (r != "" ==> r[0] != ' ')
  {
    if t != "" && t[0] == ' ' then SkipSpaces(t[1..]) else t
  }

  function FindCN(t: string): Outcome
    decreases |t|
  {
    var u := SkipSpaces(t);
    if u == "" then Null else
      match ParsePart(u)
      case Malformed => Null
      case HexForm => Unmodelled
      case Parsed(rest, value) =>
        var r := SkipSpaces(rest);
        if r != "" && r[0] != ',' && r[0] != ';' then Null
        else if value.Some? then CommonName(value.value)
        else if r == "" then Null
        else FindCN(r[1..])
  }

  /** An attribute type, its printed value, and the separator and spaces printed after it. */
  datatype Attribute = Attribute(key: string, units: seq<Unit>, separator: char, spaces: nat)

  ghost predicate IsKey(key: string) { key != "" && key[0] != ' ' && '=' !in key[1..] }

  ghost predicate Printable(a: Attribute) {
    && IsKey(a.key)
    && AllAllowed(a.units) && (a.units != [] ==> a.units[0] != Raw('#'))
    && (a.separator == ',' || a.separator == ';')
  }

  function Spaces(n: nat): string { seq(n, _ => ' ') }

  function Print(dn: seq<Attribute>): string {
    if dn == [] then "" else dn[0].key + "=" + (Text(dn[0].units) + Tail(dn))
  }

  /** What follows the value of the first attribute. */
  function Tail(dn: seq<Attribute>): string
    requires dn != []
    decreases dn, 0
  {
    if |dn| == 1 then "" else [dn[0].separator] + (Spaces(dn[0].spaces) + Print(dn[1..]))
  }

  /** The first common name, unless an unescaped '=' comes before its end. */
  ghost function Expected(dn: seq<Attribute>): Outcome
    requires forall i | 0 <= i < |dn| :: Printable(dn[i])
  {
    if dn == [] || !Clean(dn[0].units) then Null
    else if dn[0].key == "CN" then assert Printable(dn[0]); CommonName(Value(dn[0].units))
    else Expected(dn[1..])
  }

  // ----- printed names are read back -----

  lemma {:induction false} SpacesSkipped(n: nat, t: string)
    requires t == "" || t[0] != ' '
    ensures SkipSpaces(Spaces(n) + t) == t
  {
    var s := Spaces(n) + t;
    if n == 0 {
      assert s == t;
    } else {
      SpacesSkipped(n - 1, t);
      assert s[1..] == Spaces(n - 1) + t;
    }
  }

  lemma {:induction false} KeyEndAt(t: string, k: nat, e: nat)
    requires k <= e < |t| && '=' !in t[k..e] && t[e] == '='
    ensures KeyEnd(t, k) == e
    decreases e - k
  {
    if k < e {
      assert t[k] in t[k..e];
      KeyEndAt(t, k + 1, e);
    }
  }

  lemma KeyRead(key: string, v: string)
    requires key != "" && '=' !in key[1..]
    ensures var t := key + "=" + v; KeyEnd(t, 1) == |key| && t[..|key|] == key && t[|key| + 1..] == v
  {
    var t := key + "=" + v;
    assert t[1..|key|] == key[1..];
    KeyEndAt(t, 1, |key|);
  }

  lemma NoHexForm(us: seq<Unit>, t: string)
    requires us != [] ==> us[0] != Raw('#')
    requires t == "" || Ending(t[0])
    ensures var v := Text(us) + t; v != "" ==> v[0] != '#'
  {
    if us == [] {
      assert Text(us) + t == t;
    } else {
      assert (Text(us) + t)[0] == UnitText(us[0])[0];
    }
  }

  lemma PartReadBack(key: string, us: seq<Unit>, t: string)
    requires key != "" && '=' !in key[1..] && AllAllowed(us) && Clean(us)
    requires us != [] ==> us[0] != Raw('#')
    requires t == "" || Ending(t[0])
    ensures ParsePart(key + "=" + (Text(us) + t)) == Parsed(t, if key == "CN" then Some(Value(us)) else None)
  {
    hide Text, Scan, Copy, Ending, AllAllowed, Value;
    var v := Text(us) + t;
    KeyRead(key, v);
    NoHexForm(us, t);
    PassesReadBack(us, t);
  }

  lemma {:induction false} TextAppend(a: seq<Unit>, b: seq<Unit>)
    ensures Text(a + b) == Text(a) + Text(b)
  {
    if a == [] {
      assert a + b == b;
    } else {
      assert (a + b)[1..] == a[1..] + b;
      TextAppend(a[1..], b);
    }
  }

  lemma {:induction false} FirstEquals(us: seq<Unit>) returns (a: seq<Unit>, b: seq<Unit>)
    requires !Clean(us)
    ensures us == a + [Raw('=')] + b && Clean(a)
  {
    if us[0] == Raw('=') {
      a, b := [], us[1..];
    } else {
      a, b := FirstEquals(us[1..]);
      a := [us[0]] + a;
    }
  }

  /** A part whose value holds an unescaped '=' ends there. */
  lemma PartCutShort(key: string, us: seq<Unit>, t: string)
    requires key != "" && '=' !in key[1..] && AllAllowed(us) && !Clean(us)
    requires us != [] ==> us[0] != Raw('#')
    ensures var r := ParsePart(key + "=" + (Text(us) + t)); r.Parsed? && r.rest != "" && r.rest[0] == '='
  {
    hide ParsePart, Text, Allowed;
    var a, b := FirstEquals(us);
    assert a != [] ==> a[0] == us[0];
    assert forall u | u in a :: u in us;
    SplitText(a, b, t);
    PartReadBack(key, a, "=" + Text(b) + t);
  }

  lemma SplitText(a: seq<Unit>, b: seq<Unit>, t: string)
    ensures Text(a + [Raw('=')] + b) + t == Text(a) + ("=" + Text(b) + t)
  {
    hide Text;
    TextAppend(a + [Raw('=')], b);
    TextAppend(a, [Raw('=')]);
    EqualsText();
    Associate(Text(a), "=" + Text(b), t);
    Associate(Text(a), "=", Text(b));
  }

  lemma EqualsText()
    ensures Text([Raw('=')]) == "="
  {
  }

  lemma TailStarts(dn: seq<Attribute>)
    requires dn != [] && Printable(dn[0])
    ensures Tail(dn) == "" || Tail(dn)[0] == ',' || Tail(dn)[0] == ';'
  {
  }

  lemma PrintStarts(dn: seq<Attribute>)
    requires dn != [] && Printable(dn[0])
    ensures Print(dn) != "" && Print(dn)[0] != ' '
  {
    assert Print(dn)[0] == dn[0].key[0];
  }

  /** For every printed name: the value of the first common name, or nothing when there is none
      or when an unescaped '=' comes before its end. */
  lemma {:induction false} PrintedIsRead(dn: seq<Attribute>, lead: nat)
    requires forall i | 0 <= i < |dn| :: Printable(dn[i])
    ensures FindCN(Spaces(lead) + Print(dn)) == Expected(dn)
  {
    if dn == [] {
      SpacesSkipped(lead, "");
    } else {
      var a, tail := dn[0], Tail(dn);
      PrintStarts(dn);
      TailStarts(dn);
      SpacesSkipped(lead, Print(dn));
      if Clean(a.units) {
        PartReadBack(a.key, a.units, tail);
        if a.key != "CN" && |dn| > 1 {
          assert tail[1..] == Spaces(a.spaces) + Print(dn[1..]);
          PrintedIsRead(dn[1..], a.spaces);
        }
      } else {
        PartCutShort(a.key, a.units, tail);
      }
    }
  }

  /** The value of the first common name. */
  ghost function Intended(dn: seq<Attribute>): Outcome
    requires forall i | 0 <= i < |dn| :: Printable(dn[i])
  {
    if dn == [] then Null
    else if dn[0].key == "CN" then assert Printable(dn[0]); CommonName(Value(dn[0].units))
    else Intended(dn[1..])
  }

  /** No unescaped '=' in a value up to and including the first common name. */
  predicate CleanToCN(dn: seq<Attribute>) {
    dn == [] || (Clean(dn[0].units) && (dn[0].key == "CN" || CleanToCN(dn[1..])))
  }

  lemma {:induction false} ExpectedIffClean(dn: seq<Attribute>)
    requires forall i | 0 <= i < |dn| :: Printable(dn[i])
    ensures Expected(dn) == Intended(dn) <==> Intended(dn) == Null || CleanToCN(dn)
    ensures Expected(dn) == Intended(dn) || Expected(dn) == Null
  {
    if dn != [] && dn[0].key != "CN" { ExpectedIffClean(dn[1..]); }
  }

  /** Names printed as section 2.4 lets them be are read back exactly when no unescaped '='
      stands before the end of the common name. */
  lemma ReadBackExactly(dn: seq<Attribute>)
    requires forall i | 0 <= i < |dn| :: Printable(dn[i])
    ensures FindCN(Print(dn)) == Intended(dn) <==> Intended(dn) == Null || CleanToCN(dn)
  {
    PrintedIsRead(dn, 0);
    ExpectedIffClean(dn);
    assert Spaces(0) + Print(dn) == Print(dn);
  }

  /** A name that is not read back. */
  lemma EqualsIsNotReadBack()
    ensures FindCN("CN=a=b") == Null
  {
    var us := [Raw('a'), Raw('='), Raw('b')];
    var dn := [Attribute("CN", us, ',', 0)];
    assert us[1] in us;
    calc {
      Text(us);
      "a" + Text(us[1..]);
      { assert us[1..] == [Raw('=')] + [Raw('b')]; TextAppend([Raw('=')], [Raw('b')]); }
      "a=b";
    }
    assert Print(dn) == "CN=a=b";
    PrintedIsRead(dn, 0);
    assert Spaces(0) + Print(dn) == Print(dn);
  }

  // ----- the round trip of plain values -----

  datatype Entry = Entry(key: string, value: string)

  function Escape(c: char): (u: Unit)
    ensures Allowed(u) && u != Raw('=') && u != Raw('#')
    ensures UnitValue(u) == if c == '\0' then 1 as char else c
  {
    if c == '\0' then Hex('0', '0') else if Quotable(c) then Pair(c) else Raw(c)
  }

  function EscapeAll(v: string): (us: seq<Unit>)
    ensures AllAllowed(us) && Clean(us) && (us != [] ==> us[0] != Raw('#'))
  {
    if v == "" then [] else [Escape(v[0])] + EscapeAll(v[1..])
  }

  function WithoutNul(v: string): string {
    seq(|v|, i requires 0 <= i < |v| => if v[i] == '\0' then 1 as char else v[i])
  }

  lemma {:induction false} EscapedValue(v: string)
    ensures Value(EscapeAll(v)) == WithoutNul(v)
  {
    if v != "" {
      EscapedValue(v[1..]);
      assert EscapeAll(v)[1..] == EscapeAll(v[1..]);
    }
  }

  function Encode(es: seq<Entry>): seq<Attribute> {
    if es == [] then [] else [Attribute(es[0].key, EscapeAll(es[0].value), ',', 0)] + Encode(es[1..])
  }

  function FirstCN(es: seq<Entry>): Outcome {
    if es == [] then Null
    else if es[0].key == "CN" then CommonName(WithoutNul(es[0].value))
    else FirstCN(es[1..])
  }

  lemma {:induction false} EncodedIsExpected(es: seq<Entry>)
    requires forall i | 0 <= i < |es| :: IsKey(es[i].key)
    ensures forall i | 0 <= i < |Encode(es)| :: Printable(Encode(es)[i])
    ensures Expected(Encode(es)) == FirstCN(es)
  {
    hide EscapeAll, Value, AllAllowed;
    if es != [] {
      EncodedIsExpected(es[1..]);
      EscapedValue(es[0].value);
      assert Encode(es)[1..] == Encode(es[1..]);
    }
  }

  /** Escaped, printed and read back: the first common name, with every zero byte turned into a one. */
  lemma EscapedRoundTrip(es: seq<Entry>)
    requires forall i | 0 <= i < |es| :: IsKey(es[i].key)
    ensures FindCN(Print(Encode(es))) == FirstCN(es)
  {
    EncodedIsExpected(es);
    PrintedIsRead(Encode(es), 0);
    assert Spaces(0) + Print(Encode(es)) == Print(Encode(es));
  }

  // ----- the program -----

  function Counted(n: nat, r: Option<(nat, string)>): Option<(nat, string)> {
    match r
    case None => None
    case Some((m, rest)) => Some((n + m, rest))
  }

  /** The counting pass, one character of the value further. */
  lemma ScanAt(s: string, i: nat)
    requires Terminated(s) && i < |s|
    ensures Ending(s[i]) ==> Scan(s[i..]) == Some((0, s[i..]))
    ensures s[i] == '\"' ==> Scan(s[i..]) == None
    ensures s[i] == '\\' ==> Scan(s[i..]) == ScanPair(s, i + 1)
    ensures !Ending(s[i]) && s[i] != '\"' && s[i] != '\\' ==> Scan(s[i..]) == More(Scan(s[i + 1..]))
  {
    var t := s[i..];
    assert t[1..] == s[i + 1..];
    if |t| >= 2 { assert t[1] == s[i + 1] && t[2..] == s[i + 2..]; }
    if |t| >= 3 { assert t[2] == s[i + 2] && t[3..] == s[i + 3..]; }
  }

  function ScanPair(s: string, i: nat): Option<(nat, string)>
    requires i <= |s|
  {
    if Quotable(At(s, i)) then More(Scan(s[i + 1..]))
    else if IsHex(At(s, i)) && IsHex(At(s, i + 1)) then More(Scan(s[i + 2..]))
    else None
  }

  /** The counting pass. */
  method ScanValue(s: string, at: nat) returns (ok: bool, n: nat, end: nat)
    requires Terminated(s) && at <= |s|
    ensures at <= end <= |s| && Scan(s[at..]) == if ok then Some((n, s[end..])) else None
  {
    hide Scan, Ending;
    n, end, ok := 0, at, true;
    while At(s, end) != '\0'
      invariant at <= end <= |s| && ok && Scan(s[at..]) == Counted(n, Scan(s[end..]))
      decreases |s| - end
    {
      ScanAt(s, end);
      if At(s, end) == '\\' {
        end := end + 1;
        if Quotable(At(s, end)) {
          n := n + 1;
        } else if IsHex(At(s, end)) && IsHex(At(s, end + 1)) {
          end := end + 1;
          n := n + 1;
        } else {
          ok := false;
          return;
        }
      } else if At(s, end) == '\"' {
        ok := false;
        return;
      } else if Ending(At(s, end)) {
        return;
      } else {
        n := n + 1;
      }
      end := end + 1;
    }
    NothingLeft(s[end..]);
  }

  /** The next character of the value into the buffer. */
  method CopyOne(s: string, at: nat, buffer: array<char>, p: nat, ghost u: Unit) returns (end: nat)
    requires at < |s| && p < buffer.Length && Allowed(u) && UnitText(u) <= s[at..]
    modifies buffer
    ensures end == at + |UnitText(u)| && buffer[..p + 1] == old(buffer[..p]) + [UnitValue(u)]
  {
    ghost var t := s[at..];
    assert t[0] == s[at] && (|t| > 1 ==> t[1] == s[at + 1]) && (|t| > 2 ==> t[2] == s[at + 2]);
    end := at;
    if At(s, end) == '\\' {
      end := end + 1;
      if IsHex(At(s, end)) {
        if u.Pair? { QuotableNotHex(u.c); }
        buffer[p] := HexByte(At(s, end), At(s, end + 1));
        end := end + 1;
      } else {
        buffer[p] := At(s, end);
      }
    } else {
      buffer[p] := At(s, end);
    }
    end := end + 1;
    assert buffer[..p + 1] == buffer[..p] + [buffer[p]];
  }

  lemma CopyStart(t: string, n: nat)
    requires Terminated(t) && Scan(t).Some?
    ensures "" + Copy(t, n).0 == Copy(t, n).0 && Copy(t, 0) == ("", t)
    ensures Scan(t).value.0 > 0 ==> t != "" && !Ending(t[0])
  {
  }

  /** The copying pass, into a buffer of exactly the counted size. */
  method CopyValue(s: string, at: nat, n: nat) returns (value: string, end: nat)
    requires Terminated(s) && at <= |s| && Scan(s[at..]).Some? && Scan(s[at..]).value.0 == n
    ensures at <= end <= |s| && (value, s[end..]) == Copy(s[at..], n)
  {
    hide Scan, Copy, Ending, Allowed, UnitText, UnitValue;
    var buffer := new char[n + 1](_ => '\0');
    var left, p := n, 0;
    end := at;
    ghost var rest := Scan(s[at..]).value.1;
    CopyStart(s[at..], n);
    while left > 0
      invariant at <= end <= |s| && p + left == n
      invariant Scan(s[end..]) == Some((left, rest))
      invariant Copy(s[at..], n).0 == buffer[..p] + Copy(s[end..], left).0
      invariant Copy(s[at..], n).1 == Copy(s[end..], left).1
    {
      ghost var t := s[end..];
      CopyStart(t, left);
      ghost var u := FirstUnit(t);
      ScanUnit(u, t[|UnitText(u)|..]);
      assert t[|UnitText(u)|..] == s[end + |UnitText(u)|..];
      Associate(buffer[..p], [UnitValue(u)], Copy(s[end + |UnitText(u)|..], left - 1).0);
      end := CopyOne(s, end, buffer, p, u);
      p, left := p + 1, left - 1;
    }
    CopyStart(s[end..], 0);
    value := buffer[..p];
    assert value + "" == value;
  }

  /** parse_dn_part_for_CN. */
  method ParsePartAt(s: string, at: nat) returns (r: Part, end: nat)
    requires Terminated(s) && at < |s|
    ensures r == ParsePart(s[at..])
    ensures r.Parsed? ==> at < end <= |s| && r.rest == s[end..]
  {
    hide Scan, Copy;
    ghost var t := s[at..];
    end := at + 1;
    while At(s, end) != '\0' && At(s, end) != '='
      invariant at < end <= |s| && KeyEnd(t, 1) == KeyEnd(t, end - at)
      decreases |s| - end
    {
      assert t[end - at] == s[end];
      end := end + 1;
    }
    if At(s, end) == '\0' {
      assert end == |s|;
      return Malformed, end;
    }
    assert t[end - at] == s[end];
    var found := end - at == 2 && s[at] == 'C' && s[at + 1] == 'N';
    assert found <==> t[..end - at] == "CN";
    var v := end + 1;
    assert t[end - at + 1..] == s[v..];
    if At(s, v) == '#' { return HexForm, end; }
    var ok, n, stop := ScanValue(s, v);
    if !ok { return Malformed, end; }
    var value;
    value, end := CopyValue(s, v, n);
    return Parsed(s[end..], if found then Some(value) else None), end;
  }

  method SkipFrom(s: string, at: nat) returns (end: nat)
    requires at <= |s|
    ensures at <= end <= |s| && s[end..] == SkipSpaces(s[at..])
  {
    end := at;
    while end < |s| && s[end] == ' '
      invariant at <= end <= |s| && SkipSpaces(s[at..]) == SkipSpaces(s[end..])
    {
      assert s[end..][1..] == s[end + 1..];
      end := end + 1;
    }
  }

  /** parse_dn_for_CN. */
  method FindCommonName(s: string) returns (r: Outcome)
    requires Terminated(s)
    ensures r == FindCN(s)
  {
    hide ParsePart, SkipSpaces;
    var i := 0;
    assert s[0..] == s;
    while At(s, i) != '\0'
      invariant i <= |s| && FindCN(s) == FindCN(s[i..])
      decreases |s| - i
    {
      i := SkipFrom(s, i);
      if At(s, i) == '\0' { break; }
      var part, end := ParsePartAt(s, i);
      if part.HexForm? { return Unmodelled; }
      if part.Malformed? { return Null; }
      i := SkipFrom(s, end);
      var c := At(s, i);
      if c != '\0' && c != ',' && c != ';' && c != '+' { return Null; }
      if c == '+' { return Null; }
      if part.value.Some? { return CommonName(part.value.value); }
      if c != '\0' {
        assert s[i..][1..] == s[i + 1..];
        i := i + 1;
      }
    }
    return Null;
  }
}
