/**
 The line-per-record state files: hex (src/util/hex.cpp), tab-separated fields and
 bounds-checked numbers (src/mesh/record.h), and lines as `std::getline` yields them.
 */
module Records {
  import opened Bytes

  /** The digits "0123456789abcdef". */
  function HexDigit(n: int): (c: char)
    requires 0 <= n < 16
    ensures Nibble(c) == n && c != '\t' && c != '\n' && c != '-'
  {
    if n < 10 then ('0' as int + n) as char else ('a' as int + n - 10) as char
  }

  // ---- Hex -------------------------------------------------------------

  function Nibble(c: char): int {
    if '0' <= c <= '9' then c as int - '0' as int
    else if 'a' <= c <= 'f' then c as int - 'a' as int + 10
    else if 'A' <= c <= 'F' then c as int - 'A' as int + 10
    else -1
  }

  function Pair(b: Byte): (s: string)
    ensures |s| == 2
  {
    [HexDigit(b / 16), HexDigit(b % 16)]
  }

  function Hex(b: ByteString): string {
    if b == [] then "" else Hex(b[..|b| - 1]) + Pair(b[|b| - 1])
  }

  function Unhex(s: string): Option<ByteString>
    decreases |s|
  {
    if s == "" then Some([])
    else if |s| == 1 then None
    else
      var hi, lo := Nibble(s[|s| - 2]), Nibble(s[|s| - 1]);
      var rest := Unhex(s[..|s| - 2]);
      if hi < 0 || lo < 0 || rest.None? then None else Some(rest.value + [hi * 16 + lo])
  }

  method HexEncode(b: ByteString) returns (s: string)
    ensures s == Hex(b)
  {
    s := "";
    for i := 0 to |b|
      invariant s == Hex(b[..i])
    {
      assert b[..i + 1][..i] == b[..i];
      s := s + Pair(b[i]);
    }
    assert b[..|b|] == b;
  }

  method HexDecode(s: string) returns (r: Option<ByteString>)
    ensures r == Unhex(s)
  {
    if |s| % 2 != 0 {
      OddIsNotHex(s);
      return None;
    }
    var out: ByteString := [];
    var i := 0;
    while i < |s|
      invariant 0 <= i <= |s| && i % 2 == 0
      invariant Unhex(s[..i]) == Some(out)
    {
      assert s[..i + 2][..i] == s[..i];
      var hi, lo := Nibble(s[i]), Nibble(s[i + 1]);
      if hi < 0 || lo < 0 {
        BadPairIsNotHex(s, i + 2);
        return None;
      }
      out := out + [hi * 16 + lo];
      i := i + 2;
    }
    assert s[..|s|] == s;
    return Some(out);
  }

  lemma OddIsNotHex(s: string)
    requires |s| % 2 != 0
    ensures Unhex(s).None?
    decreases |s|
  {
    if |s| > 1 {
      OddIsNotHex(s[..|s| - 2]);
    }
  }

  lemma BadPairIsNotHex(s: string, n: nat)
    requires n <= |s| && n % 2 == 0 && |s| % 2 == 0 && Unhex(s[..n]).None?
    ensures Unhex(s).None?
    decreases |s|
  {
    if n == |s| {
      assert s[..n] == s;
    } else {
      assert s[..|s| - 2][..n] == s[..n];
      BadPairIsNotHex(s[..|s| - 2], n);
    }
  }

  /** Arbitrary bytes survive hex. */
  lemma {:induction false} HexRoundTrip(b: ByteString)
    ensures Unhex(Hex(b)) == Some(b) && (Hex(b) == "" <==> b == [])
    decreases |b|
  {
    if b != [] {
      var rest := b[..|b| - 1];
      var last := b[|b| - 1];
      HexRoundTrip(rest);
      assert Hex(b) == Hex(rest) + Pair(last);
      assert Hex(b)[..|Hex(b)| - 2] == Hex(rest);
      assert rest + [last] == b;
    }
  }

  /** Hex brings no separator with it. */
  lemma {:induction false} HexIsPlain(b: ByteString)
    ensures '\t' !in Hex(b) && '\n' !in Hex(b) && '-' !in Hex(b)
    decreases |b|
  {
    if b != [] {
      HexIsPlain(b[..|b| - 1]);
    }
  }

  // ---- Numbers ---------------------------------------------------------

  function Digit(n: int): char
    requires 0 <= n < 10
  {
    ('0' as int + n) as char
  }

  function Decimal(n: nat): (s: string)
    ensures s != ""
  {
    if n < 10 then [Digit(n)] else Decimal(n / 10) + [Digit(n % 10)]
  }

  function SignedDecimal(n: int): string {
    if n < 0 then "-" + Decimal(-n) else Decimal(n)
  }

  predicate IsDigit(c: char) {
    '0' <= c <= '9'
  }

  /** The value of a non-empty run of digits, as `std::from_chars` reads it. */
  function Value(s: string): Option<nat> {
    if s == "" || !IsDigit(s[|s| - 1]) then None
    else
      var d := s[|s| - 1] as int - '0' as int;
      if |s| == 1 then Some(d) else
        var rest := Value(s[..|s| - 1]);
        if rest.None? then None else Some(rest.value * 10 + d)
  }

  function ParseUnsigned(s: string, max: nat): Option<nat> {
    var v := Value(s);
    if v.None? || v.value > max then None else v
  }

  function ParseSigned(s: string, min: int, max: int): Option<int> {
    var negative := s != "" && s[0] == '-';
    var v := Value(if negative then s[1..] else s);
    if v.None? then None else
      var n: int := if negative then -(v.value as int) else v.value;
      if n < min || n > max then None else Some(n)
  }

  lemma {:induction false} DecimalRoundTrip(n: nat)
    ensures Value(Decimal(n)) == Some(n)
  {
    if n >= 10 {
      DecimalRoundTrip(n / 10);
      assert Decimal(n)[..|Decimal(n)| - 1] == Decimal(n / 10);
    }
  }

  lemma {:induction false} DecimalIsPlain(n: nat)
    ensures '\t' !in Decimal(n) && '\n' !in Decimal(n) && '-' !in Decimal(n)
  {
    if n >= 10 {
      DecimalIsPlain(n / 10);
    }
  }

  lemma UnsignedRoundTrip(n: nat, max: nat)
    requires n <= max
    ensures ParseUnsigned(Decimal(n), max) == Some(n)
    ensures '\t' !in Decimal(n) && '\n' !in Decimal(n)
  {
    DecimalRoundTrip(n);
    DecimalIsPlain(n);
  }

  lemma {:induction false} SignedRoundTrip(n: int, min: int, max: int)
    requires min <= n <= max
    ensures ParseSigned(SignedDecimal(n), min, max) == Some(n)
    ensures '\t' !in SignedDecimal(n) && '\n' !in SignedDecimal(n)
  {
    var m := if n < 0 then -n else n;
    DecimalRoundTrip(m);
    DecimalIsPlain(m);
    if n < 0 {
      assert SignedDecimal(n)[1..] == Decimal(m);
    } else {
      assert Decimal(m)[0] in Decimal(m);
    }
  }

  // ---- Fields and lines ------------------------------------------------

  /** The first `sep` from `i` on, or the end. */
  function Find(s: string, sep: char, i: nat): (n: nat)
    requires i <= |s|
    ensures i <= n <= |s|
    decreases |s| - i
  {
    if i < |s| && s[i] != sep then Find(s, sep, i + 1) else i
  }

  lemma {:induction false} FindIs(s: string, sep: char, i: nat, n: nat)
    requires i <= n <= |s| && (forall k :: i <= k < n ==> s[k] != sep) && (n < |s| ==> s[n] == sep)
    ensures Find(s, sep, i) == n
    decreases n - i
  {
    if i < n {
      FindIs(s, sep, i + 1, n);
    }
  }

  lemma FindAfter(head: string, sep: char, tail: string)
    requires sep !in head
    ensures var s := head + [sep] + tail;
            Find(s, sep, 0) == |head| && s[..|head|] == head && s[|head| + 1..] == tail
    ensures Find(head, sep, 0) == |head|
  {
    var s := head + [sep] + tail;
    assert forall k :: 0 <= k < |head| ==> s[k] == head[k] && head[k] in head;
    FindIs(s, sep, 0, |head|);
    FindIs(head, sep, 0, |head|);
  }

  function SplitFields(line: string, count: nat): (r: Option<seq<string>>)
    requires count > 0
    ensures r.Some? ==> |r.value| == count
    decreases count
  {
    var i := Find(line, '\t', 0);
    if count == 1 then (if i < |line| then None else Some([line]))
    else if i == |line| then None
    else
      var rest := SplitFields(line[i + 1..], count - 1);
      if rest.None? then None else Some([line[..i]] + rest.value)
  }

  /** `q` followed by what `rest` holds, if it holds anything. */
  function Prepend<T>(q: seq<T>, rest: Option<seq<T>>): (r: Option<seq<T>>)
    ensures q == [] ==> r == rest
  {
    if rest.None? then None else
      assert q == [] ==> q + rest.value == rest.value;
      Some(q + rest.value)
  }

  lemma PrependOne<T>(q: seq<T>, x: T, rest: Option<seq<T>>)
    ensures Prepend(q, if rest.None? then None else Some([x] + rest.value)) == Prepend(q + [x], rest)
  {
    if rest.Some? {
      assert q + ([x] + rest.value) == q + [x] + rest.value;
    }
  }

  method Split(line: string, count: nat) returns (r: Option<seq<string>>)
    requires count > 0
    ensures r == SplitFields(line, count)
  {
    var fields: seq<string> := [];
    var rest := line;
    for i := 1 to count
      invariant SplitFields(line, count) == Prepend(fields, SplitFields(rest, count - i + 1))
    {
      PrependOne(fields, rest[..Find(rest, '\t', 0)],
                 if Find(rest, '\t', 0) < |rest| then SplitFields(rest[Find(rest, '\t', 0) + 1..], count - i) else None);
      var tab := Find(rest, '\t', 0);
      if tab == |rest| {
        return None;
      }
      fields := fields + [rest[..tab]];
      rest := rest[tab + 1..];
    }
    var tab := Find(rest, '\t', 0);
    if tab < |rest| {
      return None;
    }
    return Some(fields + [rest]);
  }

  function Join(fields: seq<string>): string
    requires fields != []
  {
    if |fields| == 1 then fields[0] else fields[0] + ['\t'] + Join(fields[1..])
  }

  lemma {:induction false} SplitJoined(fields: seq<string>)
    requires fields != [] && forall i :: 0 <= i < |fields| ==> '\t' !in fields[i]
    ensures SplitFields(Join(fields), |fields|) == Some(fields)
    decreases |fields|
  {
    if |fields| == 1 {
      FindAfter(fields[0], '\t', "");
      assert [fields[0]] == fields;
    } else {
      FindAfter(fields[0], '\t', Join(fields[1..]));
      SplitJoined(fields[1..]);
      assert [fields[0]] + fields[1..] == fields;
    }
  }

  lemma {:induction false} JoinIsPlain(fields: seq<string>, c: char)
    requires fields != [] && c != '\t' && forall i :: 0 <= i < |fields| ==> c !in fields[i]
    ensures c !in Join(fields)
    decreases |fields|
  {
    if |fields| > 1 {
      JoinIsPlain(fields[1..], c);
    }
  }

  /** Lines as `std::getline` yields them: a last one needs no newline. */
  function Lines(text: string): seq<string>
    decreases |text|
  {
    if text == "" then [] else
      var i := Find(text, '\n', 0);
      [text[..i]] + Lines(if i < |text| then text[i + 1..] else "")
  }

  function Unlines(lines: seq<string>): string {
    if lines == [] then "" else lines[0] + ['\n'] + Unlines(lines[1..])
  }

  lemma {:induction false} LinesOfUnlines(lines: seq<string>)
    requires forall i :: 0 <= i < |lines| ==> '\n' !in lines[i]
    ensures Lines(Unlines(lines)) == lines
    decreases |lines|
  {
    if lines != [] {
      LinesOfUnlines(lines[1..]);
      FindAfter(lines[0], '\n', Unlines(lines[1..]));
      assert [lines[0]] + lines[1..] == lines;
    }
  }
}
