/** Positional substring retrieval by hex-encoded character grams. */
module Grams {

  // ----- UTF-8 and hexadecimal

  type Byte = b: nat | b < 256

  function Utf8(c: char): (bytes: seq<Byte>)
    ensures 1 <= |bytes| <= 4
  {
    var n := c as int;
    if n < 0x80 then [n]
    else if n < 0x800 then [0xC0 + n / 64, 0x80 + n % 64]
    else if n < 0x10000 then [0xE0 + n / 4096, 0x80 + n / 64 % 64, 0x80 + n % 64]
    else [0xF0 + n / 262144, 0x80 + n / 4096 % 64, 0x80 + n / 64 % 64, 0x80 + n % 64]
  }

  /** The code point of a well-formed sequence. */
  function CodePoint(bytes: seq<Byte>): int
    requires 1 <= |bytes| <= 4
  {
    var lead: int := bytes[0];
    match |bytes|
    case 1 => lead
    case 2 => (lead - 0xC0) * 64 + Low(bytes[1])
    case 3 => (lead - 0xE0) * 4096 + Low(bytes[1]) * 64 + Low(bytes[2])
    case _ => (lead - 0xF0) * 262144 + Low(bytes[1]) * 4096 + Low(bytes[2]) * 64 + Low(bytes[3])
  }

  /** The six bits a continuation byte carries. */
  function Low(b: int): int {
    b - 0x80
  }

  /** How many bytes a sequence starting with `lead` takes. */
  function LengthFrom(lead: Byte): nat {
    if lead < 0x80 then 1 else if lead < 0xE0 then 2 else if lead < 0xF0 then 3 else 4
  }

  lemma Utf8Decodes(c: char)
    ensures |Utf8(c)| == LengthFrom(Utf8(c)[0])
    ensures CodePoint(Utf8(c)) == c as int
  {
    var n := c as int;
    assert n / 64 == n / 4096 * 64 + n / 64 % 64 by {
      assert n / 64 / 64 == n / 4096;
    }
    assert n / 4096 == n / 262144 * 64 + n / 4096 % 64 by {
      assert n / 4096 / 64 == n / 262144;
    }
  }

  /** Prefix-freedom: a text's first character can be read off its bytes. */
  lemma FirstCharacter(c: char, d: char, x: seq<Byte>, y: seq<Byte>)
    requires Utf8(c) + x == Utf8(d) + y
    ensures c == d && x == y
  {
    Utf8Decodes(c);
    Utf8Decodes(d);
    assert (Utf8(c) + x)[0] == Utf8(c)[0] && (Utf8(d) + y)[0] == Utf8(d)[0];
    var n := |Utf8(c)|;
    assert n == |Utf8(d)|;
    assert Utf8(c) == (Utf8(c) + x)[..n] && Utf8(d) == (Utf8(d) + y)[..n];
    assert x == (Utf8(c) + x)[n..] && y == (Utf8(d) + y)[n..];
  }

  function Bytes(text: seq<char>): seq<Byte> {
    if text == [] then [] else Utf8(text[0]) + Bytes(text[1..])
  }

  lemma {:induction false} BytesInjective(a: seq<char>, b: seq<char>)
    requires |a| == |b| && Bytes(a) == Bytes(b)
    ensures a == b
    decreases |a|
  {
    if a != [] {
      FirstCharacter(a[0], b[0], Bytes(a[1..]), Bytes(b[1..]));
      BytesInjective(a[1..], b[1..]);
      assert a == [a[0]] + a[1..] && b == [b[0]] + b[1..];
    }
  }

  const HEX: string := "0123456789abcdef"

  function Hex(bytes: seq<Byte>): string {
    if bytes == [] then "" else Hex(bytes[..|bytes| - 1]) + [HEX[bytes[|bytes| - 1] / 16], HEX[bytes[|bytes| - 1] % 16]]
  }

  lemma HexDigitInjective(m: nat, n: nat)
    requires m < 16 && n < 16 && HEX[m] == HEX[n]
    ensures m == n
  {
    assert HEX == ['0', '1', '2', '3', '4', '5', '6', '7', '8', '9', 'a', 'b', 'c', 'd', 'e', 'f'];
  }

  lemma {:induction false} HexLength(bytes: seq<Byte>)
    ensures |Hex(bytes)| == 2 * |bytes|
  {
    if bytes != [] {
      HexLength(bytes[..|bytes| - 1]);
    }
  }

  lemma {:induction false} HexInjective(a: seq<Byte>, b: seq<Byte>)
    requires Hex(a) == Hex(b)
    ensures a == b
    decreases |a|
  {
    HexLength(a);
    HexLength(b);
    if a != [] {
      var m, n := a[|a| - 1], b[|b| - 1];
      var front, back := Hex(a[..|a| - 1]), Hex(b[..|b| - 1]);
      HexLength(a[..|a| - 1]);
      HexLength(b[..|b| - 1]);
      assert front == Hex(a)[..2 * |a| - 2] && back == Hex(b)[..2 * |b| - 2];
      assert Hex(a)[2 * |a| - 2] == HEX[m / 16] && Hex(b)[2 * |b| - 2] == HEX[n / 16];
      assert Hex(a)[2 * |a| - 1] == HEX[m % 16] && Hex(b)[2 * |b| - 1] == HEX[n % 16];
      HexDigitInjective(m / 16, n / 16);
      HexDigitInjective(m % 16, n % 16);
      HexInjective(a[..|a| - 1], b[..|b| - 1]);
      assert a == a[..|a| - 1] + [m] && b == b[..|b| - 1] + [n];
    }
  }

  // ----- Grams

  function Gram(window: seq<char>): string {
    Hex(Bytes(window))
  }

  lemma GramInjective(a: seq<char>, b: seq<char>)
    requires |a| == |b| && Gram(a) == Gram(b)
    ensures a == b
  {
    HexInjective(Bytes(a), Bytes(b));
    BytesInjective(a, b);
  }

  /** Every window of `width` characters, encoded, in order. */
  function GramList(value: seq<char>, width: nat): (grams: seq<string>)
    requires width > 0
    ensures |grams| == if |value| < width then 0 else |value| - width + 1
    ensures forall i :: 0 <= i < |grams| ==> grams[i] == Gram(value[i..i + width])
  {
    if |value| < width then []
    else seq(|value| - width + 1, i requires 0 <= i <= |value| - width => Gram(value[i..i + width]))
  }

  method Encode(literal: seq<Byte>) returns (encoded: string)
    ensures encoded == Hex(literal)
  {
    encoded := "";
    assert literal[..0] == [];
    for i := 0 to |literal|
      invariant encoded == Hex(literal[..i])
    {
      assert literal[..i + 1][..i] == literal[..i];
      encoded := encoded + [HEX[literal[i] / 16]];
      encoded := encoded + [HEX[literal[i] % 16]];
    }
    assert literal[..|literal|] == literal;
  }

  method MakeGrams(value: seq<char>, width: nat) returns (grams: seq<string>)
    requires width > 0
    ensures grams == GramList(value, width)
  {
    grams := [];
    if |value| < width {
      return;
    }
    for start := 0 to |value| - width + 1
      invariant |grams| == start
      invariant forall i :: 0 <= i < start ==> grams[i] == Gram(value[i..i + width])
    {
      var encoded := Encode(Bytes(value[start..start + width]));
      grams := grams + [encoded];
    }
  }

  // ----- Retrieval

  datatype Query = TermQuery(term: string) | PhraseQuery(terms: seq<string>)

  ghost predicate ConsecutiveAt(terms: seq<string>, positions: seq<string>, i: nat) {
    i + |terms| <= |positions| && positions[i..i + |terms|] == terms
  }

  /** A term occurs anywhere; a phrase occurs at consecutive positions. */
  ghost predicate Matches(query: Query, positions: seq<string>) {
    match query
    case TermQuery(term) => term in positions
    case PhraseQuery(terms) => exists i: nat :: ConsecutiveAt(terms, positions, i)
  }

  method GramQuery(query: seq<char>, width: nat) returns (q: Query)
    requires width > 0
    ensures q == QueryOf(GramList(query, width))
  {
    var terms := MakeGrams(query, width);
    q := if |terms| == 1 then TermQuery(terms[0]) else PhraseQuery(terms);
  }

  function QueryOf(terms: seq<string>): Query {
    if |terms| == 1 then TermQuery(terms[0]) else PhraseQuery(terms)
  }

  ghost predicate OccursAt(query: seq<char>, name: seq<char>, i: nat) {
    i + |query| <= |name| && name[i..i + |query|] == query
  }

  ghost predicate IsSubstring(query: seq<char>, name: seq<char>) {
    exists i: nat :: OccursAt(query, name, i)
  }

  lemma SliceOfSlice(s: seq<char>, lo: nat, hi: nat, from: nat, to: nat)
    requires lo <= hi <= |s| && from <= to <= hi - lo
    ensures s[lo..hi][from..to] == s[lo + from..lo + to]
  {
    var a, b := s[lo..hi][from..to], s[lo + from..lo + to];
    assert forall j :: 0 <= j < |a| ==> a[j] == b[j];
  }

  lemma OccurrenceHasGrams(query: seq<char>, name: seq<char>, width: nat, i: nat)
    requires 0 < width <= |query| && OccursAt(query, name, i)
    ensures ConsecutiveAt(GramList(query, width), GramList(name, width), i)
  {
    hide Gram;
    var terms, positions := GramList(query, width), GramList(name, width);
    forall k | 0 <= k < |terms| ensures positions[i + k] == terms[k] {
      SliceOfSlice(name, i, i + |query|, k, k + width);
      assert query[k..k + width] == name[i + k..i + k + width];
    }
    assert positions[i..i + |terms|] == terms;
  }

  lemma GramsShowWindow(query: seq<char>, name: seq<char>, width: nat, i: nat, w: nat)
    requires 0 < width <= |query| && ConsecutiveAt(GramList(query, width), GramList(name, width), i)
    requires w + width <= |query|
    ensures i + w + width <= |name| && name[i + w..i + w + width] == query[w..w + width]
  {
    hide Gram;
    var terms, positions := GramList(query, width), GramList(name, width);
    assert positions[i..i + |terms|][w] == positions[i + w];
    GramInjective(name[i + w..i + w + width], query[w..w + width]);
  }

  lemma GramsShowCharacter(query: seq<char>, name: seq<char>, width: nat, i: nat, k: nat)
    requires 0 < width <= |query| && ConsecutiveAt(GramList(query, width), GramList(name, width), i) && k < |query|
    ensures i + k < |name| && name[i + k] == query[k]
  {
    hide GramList, ConsecutiveAt;
    var w := if k <= |query| - width then k else |query| - width;
    GramsShowWindow(query, name, width, i, w);
    assert name[i + w..i + w + width][k - w] == query[w..w + width][k - w];
  }

  /** Position by position, the query's grams follow each other exactly where the query occurs. */
  lemma GramsLocate(query: seq<char>, name: seq<char>, width: nat, i: nat)
    requires 0 < width <= |query|
    ensures ConsecutiveAt(GramList(query, width), GramList(name, width), i) <==> OccursAt(query, name, i)
  {
    if OccursAt(query, name, i) {
      OccurrenceHasGrams(query, name, width, i);
    }
    if ConsecutiveAt(GramList(query, width), GramList(name, width), i) {
      forall k | 0 <= k < |query| ensures name[i + k] == query[k] {
        GramsShowCharacter(query, name, width, i, k);
      }
    }
  }

  /** Retrieval is exact for every query at least as long as the grams are wide. */
  lemma RetrievalExact(query: seq<char>, name: seq<char>, width: nat)
    requires 0 < width <= |query|
    ensures Matches(QueryOf(GramList(query, width)), GramList(name, width)) <==> IsSubstring(query, name)
  {
    hide Gram, OccursAt;
    var terms, positions := GramList(query, width), GramList(name, width);
    if |terms| == 1 {
      if terms[0] in positions {
        var i :| 0 <= i < |positions| && positions[i] == terms[0];
        assert ConsecutiveAt(terms, positions, i);
        GramsLocate(query, name, width, i);
      }
      if IsSubstring(query, name) {
        var i: nat :| OccursAt(query, name, i);
        GramsLocate(query, name, width, i);
        assert positions[i..i + 1][0] == positions[i];
      }
    } else {
      forall i: nat ensures ConsecutiveAt(terms, positions, i) <==> OccursAt(query, name, i) {
        GramsLocate(query, name, width, i);
      }
    }
  }
}
