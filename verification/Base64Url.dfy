/**
 Reading the push server's public key: unpadded base64url (section 5 of RFC 4648) turned into
 bytes by way of the browser's `atob`, which only knows the alphabet of section 4.
 */
module Base64Url {
  import opened Tables

  type Byte = b: int | 0 <= b < 256
  type Sextet = v: int | 0 <= v < 64

  // ---------------------------------------------------------------- the two alphabets

  function UrlChar(v: Sextet): char {
    if v < 26 then ('A' as int + v) as char
    else if v < 52 then ('a' as int + (v - 26)) as char
    else if v < 62 then ('0' as int + (v - 52)) as char
    else if v == 62 then '-' else '_'
  }

  predicate InAlphabet(c: char) {
    'A' <= c <= 'Z' || 'a' <= c <= 'z' || '0' <= c <= '9' || c == '+' || c == '/'
  }

  function Value(c: char): Sextet
    requires InAlphabet(c)
  {
    if 'A' <= c <= 'Z' then c as int - 'A' as int
    else if 'a' <= c <= 'z' then c as int - 'a' as int + 26
    else if '0' <= c <= '9' then c as int - '0' as int + 52
    else if c == '+' then 62 else 63
  }

  /** The swap the page makes before decoding. */
  function SwapChar(c: char): char {
    if c == '-' then '+' else if c == '_' then '/' else c
  }

  function Swap(s: string): string {
    seq(|s|, i requires 0 <= i < |s| => SwapChar(s[i]))
  }

  // ---------------------------------------------------------------- group by group

  /** `f` on every `n` elements, and on what is left at the end. */
  function Chunked<A, B>(s: seq<A>, n: nat, f: seq<A> -> seq<B>): seq<B>
    requires n > 0
  {
    if |s| <= n then f(s) else f(s[..n]) + Chunked(s[n..], n, f)
  }

  /** The last group. */
  function Tail<A>(s: seq<A>, n: nat): seq<A>
    requires n > 0
  {
    if |s| <= n then s else Tail(s[n..], n)
  }

  /** Everything before it. */
  function Front<A>(s: seq<A>, n: nat): seq<A>
    requires n > 0
  {
    if |s| <= n then [] else s[..n] + Front(s[n..], n)
  }

  // ---------------------------------------------------------------- encoding

  /** Three bytes are four groups of six bits; a shorter group is filled up with zero bits. */
  function Pack(b: seq<Byte>): seq<Sextet> {
    if |b| == 0 then []
    else if |b| == 1 then [b[0] / 4, b[0] % 4 * 16]
    else if |b| == 2 then [b[0] / 4, b[0] % 4 * 16 + b[1] / 16, b[1] % 16 * 4]
    else [b[0] / 4, b[0] % 4 * 16 + b[1] / 16, b[1] % 16 * 4 + b[2] / 64, b[2] % 64]
  }

  function Sextets(b: seq<Byte>): seq<Sextet> {
    Chunked(b, 3, Pack)
  }

  function UrlText(v: seq<Sextet>): string {
    seq(|v|, i requires 0 <= i < |v| => UrlChar(v[i]))
  }

  function Encode(b: seq<Byte>): string {
    UrlText(Sextets(b))
  }

  // ---------------------------------------------------------------- atob

  function Byte0(a: Sextet, b: Sextet): Byte {
    a * 4 + b / 16
  }

  function Byte1(b: Sextet, c: Sextet): Byte {
    b % 16 * 16 + c / 4
  }

  function Byte2(c: Sextet, d: Sextet): Byte {
    c % 4 * 64 + d
  }

  /** The whole bytes in a group; a single character holds none. */
  function Unpack(v: seq<Sextet>): seq<Byte> {
    if |v| <= 1 then []
    else if |v| == 2 then [Byte0(v[0], v[1])]
    else if |v| == 3 then [Byte0(v[0], v[1]), Byte1(v[1], v[2])]
    else [Byte0(v[0], v[1]), Byte1(v[1], v[2]), Byte2(v[2], v[3])]
  }

  function Octets(v: seq<Sextet>): seq<Byte> {
    Chunked(v, 4, Unpack)
  }

  predicate IsSpace(c: char) {
    c in {' ', '\t', '\n', '\r', 0xC as char}
  }

  function WithoutSpaces(t: string): string {
    if t == "" then ""
    else (if IsSpace(t[0]) then "" else [t[0]]) + WithoutSpaces(t[1..])
  }

  /** One or two closing '=' come off, but only off a whole number of groups. */
  function WithoutPadding(t: string): string {
    if |t| % 4 != 0 || t == "" || t[|t| - 1] != '=' then t
    else if t[|t| - 2] != '=' then t[..|t| - 1]
    else t[..|t| - 2]
  }

  predicate Decodable(t: string) {
    |t| % 4 != 1 && forall i | 0 <= i < |t| :: InAlphabet(t[i])
  }

  function Values(t: string): seq<Sextet>
    requires Decodable(t)
  {
    seq(|t|, i requires 0 <= i < |t| => Value(t[i]))
  }

  /** `None` is the exception thrown for text that is not base64. */
  function Atob(t: string): Option<seq<Byte>> {
    var data := WithoutPadding(WithoutSpaces(t));
    if Decodable(data) then Some(Octets(Values(data))) else None
  }

  // ---------------------------------------------------------------- the page's decoder

  function Padding(n: nat): string {
    seq((4 - n % 4) % 4, i => '=')
  }

  function Decode(s: string): Option<seq<Byte>> {
    Atob(Swap(s + Padding(|s|)))
  }

  /** `atob` hands its bytes over as characters. */
  function BinaryString(b: seq<Byte>): string {
    seq(|b|, i requires 0 <= i < |b| => b[i] as char)
  }

  method UrlBase64ToUint8Array(base64UrlKey: string) returns (r: Option<array<int>>)
    ensures r.Some? <==> Decode(base64UrlKey).Some?
    ensures r.Some? ==> fresh(r.value) && r.value[..] == Decode(base64UrlKey).value
  {
    var base64 := Swap(base64UrlKey + Padding(|base64UrlKey|));
    var decoded := Atob(base64);
    if decoded.None? {
      return None;
    }
    var raw := BinaryString(decoded.value);
    var bytes := new int[|raw|];
    for i := 0 to |raw|
      invariant forall j | 0 <= j < i :: bytes[j] == decoded.value[j]
    {
      bytes[i] := raw[i] as int;
    }
    return Some(bytes);
  }

  // ---------------------------------------------------------------- the encoding of the standard

  const LETTERS := "ABCDEFGHIJKLMNOPQRSTUVWXYZ"
  const SMALL_LETTERS := "abcdefghijklmnopqrstuvwxyz"
  const DIGITS := "0123456789"

  /** The alphabet of section 5 of RFC 4648 in its order, and that of section 4 after the page's swap. */
  lemma Alphabets(v: Sextet)
    ensures UrlChar(v) == (LETTERS + SMALL_LETTERS + DIGITS + "-_")[v]
    ensures SwapChar(UrlChar(v)) == (LETTERS + SMALL_LETTERS + DIGITS + "+/")[v]
  {
    if v < 26 {
      assert UrlChar(v) == LETTERS[v];
    } else if v < 52 {
      assert UrlChar(v) == SMALL_LETTERS[v - 26];
    } else if v < 62 {
      assert UrlChar(v) == DIGITS[v - 52];
    }
  }

  /** Three bytes and their four groups are the same 24-bit number, most significant first. */
  lemma PackIsBigEndian(b: seq<Byte>)
    requires |b| == 3
    ensures var v := Pack(b);
            |v| == 4
            && var p: int, q: int, r: int, s: int := v[0], v[1], v[2], v[3];
            var x: int, y: int, z: int := b[0], b[1], b[2];
            p * 0x40000 + q * 0x1000 + r * 0x40 + s == x * 0x10000 + y * 0x100 + z
  {
  }

  /** A shorter group is encoded like one filled up with zero bytes, less the characters those alone would fill. */
  lemma PackFillsUp(b: seq<Byte>)
    requires 1 <= |b| <= 2
    ensures Pack(b) == if |b| == 1 then Pack(b + [0, 0])[..2] else Pack(b + [0])[..3]
  {
  }

  /** Three bytes at a time. */
  lemma EncodeGroup(b: seq<Byte>)
    requires |b| > 3
    ensures Encode(b) == Encode(b[..3]) + Encode(b[3..])
  {
  }

  // ---------------------------------------------------------------- undoing a grouping

  /** Only the last group may come out short. */
  ghost predicate Groups<A(!new), B(!new)>(s: seq<A>, n: nat, m: nat, f: seq<A> -> seq<B>)
    requires n > 0
  {
    && (forall c | |c| == n :: |f(c)| == m)
    && |f(Tail(s, n))| <= m && (s != [] ==> f(Tail(s, n)) != [])
  }

  lemma {:induction false} ChunkedTail<A(!new), B(!new)>(s: seq<A>, n: nat, m: nat, f: seq<A> -> seq<B>)
    requires n > 0 && m > 0 && Groups(s, n, m, f)
    ensures Tail(Chunked(s, n, f), m) == f(Tail(s, n))
    ensures s != [] ==> Chunked(s, n, f) != []
  {
    if |s| > n {
      ChunkedTail(s[n..], n, m, f);
      assert Chunked(s, n, f)[m..] == Chunked(s[n..], n, f);
    }
  }

  /** Grouping by `f` and then by `g` gives back everything before the last group. */
  lemma {:induction false} ChunkedBack<A(!new), B(!new)>(s: seq<A>, n: nat, m: nat, f: seq<A> -> seq<B>, g: seq<B> -> seq<A>)
    requires n > 0 && m > 0 && Groups(s, n, m, f)
    requires forall c | |c| == n :: g(f(c)) == c
    ensures Chunked(Chunked(s, n, f), m, g) == Front(s, n) + g(f(Tail(s, n)))
  {
    if |s| > n {
      var first, rest := s[..n], s[n..];
      ChunkedBack(rest, n, m, f, g);
      ChunkedTail(rest, n, m, f);
      NextGroup(f(first), Chunked(rest, n, f), m, g);
      calc {
        Chunked(Chunked(s, n, f), m, g);
        g(f(first)) + Chunked(Chunked(rest, n, f), m, g);
        first + (Front(rest, n) + g(f(Tail(rest, n))));
        Front(s, n) + g(f(Tail(s, n)));
      }
    }
  }

  lemma NextGroup<A, B>(head: seq<B>, rest: seq<B>, m: nat, g: seq<B> -> seq<A>)
    requires |head| == m > 0 && rest != []
    ensures Chunked(head + rest, m, g) == g(head) + Chunked(rest, m, g)
  {
  }

  lemma {:induction false} TailEnds<A>(s: seq<A>, n: nat)
    requires n > 0
    ensures s == Front(s, n) + Tail(s, n)
    ensures s != [] ==> 0 < |Tail(s, n)| <= n
  {
    if |s| > n {
      TailEnds(s[n..], n);
    }
  }

  lemma {:induction false} TailOfFour<A>(s: seq<A>)
    ensures |s| % 4 == |Tail(s, 4)| % 4
  {
    if |s| > 4 {
      TailOfFour(s[4..]);
    }
  }

  // ---------------------------------------------------------------- bits

  lemma ByteBits(x: Byte, y: Byte, z: Byte)
    ensures Byte0(x / 4, x % 4 * 16 + y / 16) == x
    ensures Byte1(x % 4 * 16 + y / 16, y % 16 * 4 + z / 64) == y
    ensures Byte2(y % 16 * 4 + z / 64, z % 64) == z
  {
    assert (x % 4 * 16 + y / 16) / 16 == x % 4 && (x % 4 * 16 + y / 16) % 16 == y / 16;
    assert (y % 16 * 4 + z / 64) / 4 == y % 16 && (y % 16 * 4 + z / 64) % 4 == z / 64;
  }

  lemma UnpackPack(b: seq<Byte>)
    requires |b| <= 3
    ensures Unpack(Pack(b)) == b
  {
    if |b| > 0 {
      ByteBits(b[0], if |b| > 1 then b[1] else 0, if |b| > 2 then b[2] else 0);
    }
  }

  lemma SextetBits(a: Sextet, b: Sextet, c: Sextet, d: Sextet)
    ensures Byte0(a, b) / 4 == a && Byte0(a, b) % 4 * 16 + Byte1(b, c) / 16 == b
    ensures Byte1(b, c) % 16 * 4 + Byte2(c, d) / 64 == c && Byte2(c, d) % 64 == d
  {
  }

  lemma PackUnpackFull(v: seq<Sextet>)
    requires |v| == 4
    ensures Pack(Unpack(v)) == v
  {
    SextetBits(v[0], v[1], v[2], v[3]);
  }

  /** The bits of a group that belong to no byte. */
  function Spare(v: seq<Sextet>): nat {
    if |v| == 2 then v[1] % 16 else if |v| == 3 then v[2] % 4 else 0
  }

  lemma PackUnpackIff(v: seq<Sextet>)
    requires |v| <= 4 && |v| != 1
    ensures Pack(Unpack(v)) == v <==> Spare(v) == 0
  {
    if |v| == 2 {
      assert Byte0(v[0], v[1]) % 4 == v[1] / 16;
    } else if |v| == 3 {
      SextetBits(v[0], v[1], v[2], 0);
      assert Byte1(v[1], v[2]) % 16 == v[2] / 4;
    } else if |v| == 4 {
      PackUnpackFull(v);
    }
  }

  function SpareBits(v: seq<Sextet>): nat {
    Spare(Tail(v, 4))
  }

  lemma PackGroups(b: seq<Byte>)
    ensures Groups(b, 3, 4, Pack)
    ensures |Pack(Tail(b, 3))| in {0, 2, 3, 4}
  {
  }

  lemma SextetsLength(b: seq<Byte>)
    ensures |Sextets(b)| % 4 != 1
  {
    PackGroups(b);
    ChunkedTail(b, 3, 4, Pack);
    TailOfFour(Sextets(b));
  }

  lemma OctetsOfSextets(b: seq<Byte>)
    ensures Octets(Sextets(b)) == b
  {
    TailEnds(b, 3);
    PackGroups(b);
    forall c: seq<Byte> | |c| == 3
      ensures Unpack(Pack(c)) == c
    {
      UnpackPack(c);
    }
    UnpackPack(Tail(b, 3));
    ChunkedBack(b, 3, 4, Pack, Unpack);
  }

  lemma SextetsOfOctetsIff(v: seq<Sextet>)
    requires |v| % 4 != 1
    ensures Sextets(Octets(v)) == v <==> SpareBits(v) == 0
  {
    var last := Tail(v, 4);
    TailEnds(v, 4);
    TailOfFour(v);
    forall c: seq<Sextet> | |c| == 4
      ensures |Unpack(c)| == 3 && Pack(Unpack(c)) == c
    {
      PackUnpackFull(c);
    }
    PackUnpackIff(last);
    ChunkedBack(v, 4, 3, Unpack, Pack);
    var front := Front(v, 4);
    assert (front + Pack(Unpack(last)))[|front|..] == Pack(Unpack(last)) && v[|front|..] == last;
  }

  // ---------------------------------------------------------------- text

  predicate InUrlAlphabet(c: char) {
    'A' <= c <= 'Z' || 'a' <= c <= 'z' || '0' <= c <= '9' || c == '-' || c == '_'
  }

  lemma CharRoundTrip(v: Sextet)
    ensures InUrlAlphabet(UrlChar(v)) && Value(SwapChar(UrlChar(v))) == v
  {
  }

  lemma UrlCharOfValue(c: char)
    requires InUrlAlphabet(c)
    ensures UrlChar(Value(SwapChar(c))) == c
  {
  }

  lemma {:induction false} NoSpacesToDrop(t: string)
    requires forall i | 0 <= i < |t| :: !IsSpace(t[i])
    ensures WithoutSpaces(t) == t
  {
    if t != "" {
      NoSpacesToDrop(t[1..]);
    }
  }

  /** What is left of the text once the page has padded it and `atob` has taken padding off. */
  function Core(s: string): string {
    if |s| % 4 == 0 then WithoutPadding(s)
    else if |s| % 4 == 3 && s[|s| - 1] == '=' then s[..|s| - 1]
    else s
  }

  lemma PaddingComesOff(s: string)
    requires |s| % 4 != 1
    ensures WithoutPadding(Swap(s + Padding(|s|))) == Swap(Core(s))
  {
    var t := Swap(s + Padding(|s|));
    if |s| % 4 == 2 {
      assert t[..|t| - 2] == Swap(s);
    } else if |s| % 4 == 3 {
      assert t[..|t| - 1] == Swap(s);
      assert t[|t| - 2] == SwapChar(s[|s| - 1]);
      if s[|s| - 1] == '=' {
        assert t[..|t| - 2] == Swap(s[..|s| - 1]);
      }
    } else {
      assert t == Swap(s);
      assert WithoutPadding(t) == Swap(WithoutPadding(s));
    }
  }

  /** Exactly which texts the page can decode, blanks aside. */
  lemma DecodesIff(s: string)
    requires forall i | 0 <= i < |s| :: !IsSpace(s[i])
    ensures Decode(s).Some? <==> |s| % 4 != 1 && forall i | 0 <= i < |Core(s)| :: InAlphabet(Core(s)[i]) || InUrlAlphabet(Core(s)[i])
  {
    var t := Swap(s + Padding(|s|));
    NoSpacesToDrop(t);
    if |s| % 4 == 1 {
      TooMuchPadding(s);
    } else {
      PaddingComesOff(s);
      CoreLength(s);
      SwapDecodableIff(Core(s));
    }
  }

  lemma TooMuchPadding(s: string)
    requires |s| % 4 == 1
    ensures !Decodable(WithoutPadding(Swap(s + Padding(|s|))))
  {
    var t := Swap(s + Padding(|s|));
    assert t[|t| - 3] == '=';
    assert WithoutPadding(t)[|t| - 3] == '=';
  }

  lemma CoreLength(s: string)
    requires |s| % 4 != 1
    ensures |Core(s)| % 4 != 1
  {
  }

  lemma SwapDecodableIff(s: string)
    requires |s| % 4 != 1
    ensures Decodable(Swap(s)) <==> forall i | 0 <= i < |s| :: InAlphabet(s[i]) || InUrlAlphabet(s[i])
  {
    assert forall i | 0 <= i < |s| :: Swap(s)[i] == SwapChar(s[i]);
    forall i | 0 <= i < |s|
      ensures InAlphabet(SwapChar(s[i])) <==> InAlphabet(s[i]) || InUrlAlphabet(s[i])
    {
    }
  }

  lemma DecodesUrlText(s: string)
    requires |s| % 4 != 1 && forall i | 0 <= i < |s| :: InUrlAlphabet(s[i])
    ensures Decodable(Swap(s)) && Decode(s) == Some(Octets(Values(Swap(s))))
  {
    NoSpacesToDrop(Swap(s + Padding(|s|)));
    PaddingComesOff(s);
  }

  /** Every byte string survives being encoded and read back. */
  lemma RoundTrip(b: seq<Byte>)
    ensures Decode(Encode(b)) == Some(b)
  {
    var v := Sextets(b);
    SextetsLength(b);
    OctetsOfSextets(b);
    forall i | 0 <= i < |v|
      ensures InUrlAlphabet(Encode(b)[i]) && Value(SwapChar(Encode(b)[i])) == v[i]
    {
      CharRoundTrip(v[i]);
    }
    DecodesUrlText(Encode(b));
    assert Values(Swap(Encode(b))) == v;
  }

  /** A key text is the one its bytes encode to exactly when its spare bits are zero. */
  lemma ReencodesIff(s: string)
    requires |s| % 4 != 1 && forall i | 0 <= i < |s| :: InUrlAlphabet(s[i])
    ensures Decode(s).Some? && Decodable(Swap(s))
    ensures Encode(Decode(s).value) == s <==> SpareBits(Values(Swap(s))) == 0
  {
    DecodesUrlText(s);
    var v := Values(Swap(s));
    SextetsOfOctetsIff(v);
    forall i | 0 <= i < |v|
      ensures UrlChar(v[i]) == s[i]
    {
      UrlCharOfValue(s[i]);
    }
    assert UrlText(v) == s;
    var w := Sextets(Octets(v));
    if UrlText(w) == UrlText(v) {
      forall i | 0 <= i < |v|
        ensures |w| == |v| && w[i] == v[i]
      {
        assert |UrlText(w)| == |w| && UrlText(w)[i] == UrlText(v)[i];
        CharRoundTrip(w[i]);
        CharRoundTrip(v[i]);
      }
      assert |UrlText(w)| == |UrlText(v)|;
      assert w == v;
    }
  }
}
