/** Share codes: rejection sampling over a stream of random bytes, and the format check. */
module Codes {
  import opened Wrappers

  const DIGITS := "0123456789"
  const UPPER := "ABCDEFGHIJKLMNOPQRSTUVWXYZ"
  const LOWER := "abcdefghijklmnopqrstuvwxyz"
  const ALPHABET := DIGITS + UPPER + LOWER
  const CODE_LENGTH: nat := 8

  newtype Byte = b: int | 0 <= b < 256

  /** 62 * 4: larger bytes would favour some characters. */
  const MAX_UNBIASED_BYTE: Byte := 248

  predicate Accepted(b: Byte) {
    b < MAX_UNBIASED_BYTE
  }

  function CharOf(b: Byte): char {
    ALPHABET[b % 62]
  }

  /** The bytes below 248, in order. */
  function Kept(bs: seq<Byte>): (r: seq<Byte>)
    ensures forall b :: b in r ==> Accepted(b)
  {
    if bs == [] then []
    else (if Accepted(bs[0]) then [bs[0]] else []) + Kept(bs[1..])
  }

  function Image(bs: seq<Byte>): (s: string)
    ensures |s| == |bs|
  {
    if bs == [] then "" else [CharOf(bs[0])] + Image(bs[1..])
  }

  function Flatten(chunks: seq<seq<Byte>>): seq<Byte> {
    if chunks == [] then [] else chunks[0] + Flatten(chunks[1..])
  }

  /** The code that a byte stream determines, if it is long enough. */
  function CodeFrom(bs: seq<Byte>): Option<string> {
    if CODE_LENGTH <= |Kept(bs)| then Some(Image(Kept(bs)[..CODE_LENGTH])) else None
  }

  lemma {:induction false} KeptConcat(a: seq<Byte>, b: seq<Byte>)
    ensures Kept(a + b) == Kept(a) + Kept(b)
    decreases |a|
  {
    if a == [] {
      assert a + b == b;
    } else {
      assert (a + b)[1..] == a[1..] + b;
      KeptConcat(a[1..], b);
    }
  }

  lemma {:induction false} ImageConcat(a: seq<Byte>, b: seq<Byte>)
    ensures Image(a + b) == Image(a) + Image(b)
    decreases |a|
  {
    if a == [] {
      assert a + b == b;
    } else {
      assert (a + b)[1..] == a[1..] + b;
      ImageConcat(a[1..], b);
    }
  }

  lemma ImageOfNext(bs: seq<Byte>, b: Byte)
    ensures Image(Kept(bs + [b])) == Image(Kept(bs)) + if Accepted(b) then [CharOf(b)] else []
  {
    KeptConcat(bs, [b]);
    ImageConcat(Kept(bs), Kept([b]));
    assert [b][1..] == [] && Kept([b]) == if Accepted(b) then [b] else [];
    assert Image([b]) == [CharOf(b)] + [];
  }

  lemma {:induction false} FlattenSnoc(chunks: seq<seq<Byte>>, c: seq<Byte>)
    ensures Flatten(chunks + [c]) == Flatten(chunks) + c
    decreases |chunks|
  {
    if chunks == [] {
      assert Flatten([c]) == c + [];
    } else {
      assert (chunks + [c])[1..] == chunks[1..] + [c];
      FlattenSnoc(chunks[1..], c);
    }
  }

  /** Reading one buffer: appends characters of accepted bytes until the code is full. */
  method TakeFrom(out: string, buf: seq<Byte>, ghost seen: seq<Byte>) returns (out': string)
    requires |out| < CODE_LENGTH && out == Image(Kept(seen))
    ensures |out'| <= CODE_LENGTH
    ensures |out'| < CODE_LENGTH ==> out' == Image(Kept(seen + buf))
    ensures |out'| == CODE_LENGTH ==> CodeFrom(seen + buf) == Some(out')
  {
    out' := out;
    var i := 0;
    assert seen + buf[..0] == seen;
    while i < |buf|
      invariant 0 <= i <= |buf| && |out'| < CODE_LENGTH
      invariant out' == Image(Kept(seen + buf[..i]))
    {
      var b := buf[i];
      assert seen + buf[..i + 1] == (seen + buf[..i]) + [b];
      ImageOfNext(seen + buf[..i], b);
      i := i + 1;
      if b >= MAX_UNBIASED_BYTE {
        continue;
      }
      out' := out' + [ALPHABET[b % 62]];
      if |out'| == CODE_LENGTH {
        assert seen + buf == (seen + buf[..i]) + buf[i..];
        KeptConcat(seen + buf[..i], buf[i..]);
        return;
      }
    }
    assert buf[..i] == buf;
  }

  /**
   NewCode. Each buffer is one read of the random source; running out of buffers
   is the source failing. The result depends only on the bytes read, not on how
   they are split into buffers.
   */
  method NewCode(buffers: seq<seq<Byte>>) returns (r: Result<string, ()>)
    ensures r == match CodeFrom(Flatten(buffers)) case Some(s) => Success(s) case None => Failure(())
  {
    var out := "";
    var k := 0;
    while |out| < CODE_LENGTH
      invariant 0 <= k <= |buffers| && |out| <= CODE_LENGTH
      invariant |out| < CODE_LENGTH ==> out == Image(Kept(Flatten(buffers[..k])))
      invariant |out| < CODE_LENGTH ==> |Kept(Flatten(buffers[..k]))| < CODE_LENGTH
      invariant |out| == CODE_LENGTH ==> CodeFrom(Flatten(buffers[..k])) == Some(out)
      decreases |buffers| - k, CODE_LENGTH - |out|
    {
      if k == |buffers| {
        assert buffers[..k] == buffers;
        return Failure(());
      }
      out := TakeFrom(out, buffers[k], Flatten(buffers[..k]));
      assert buffers[..k + 1] == buffers[..k] + [buffers[k]];
      FlattenSnoc(buffers[..k], buffers[k]);
      k := k + 1;
    }
    PrefixDecides(buffers, k);
    return Success(out);
  }

  /** A code that a prefix of the stream determines is the code of the stream. */
  lemma PrefixDecides(buffers: seq<seq<Byte>>, k: nat)
    requires k <= |buffers| && CodeFrom(Flatten(buffers[..k])).Some?
    ensures CodeFrom(Flatten(buffers)) == CodeFrom(Flatten(buffers[..k]))
  {
    FlattenSplit(buffers, k);
    CodeOfPrefix(Flatten(buffers[..k]), Flatten(buffers[k..]));
    hide Flatten;
    hide CodeFrom;
  }

  lemma CodeOfPrefix(a: seq<Byte>, b: seq<Byte>)
    requires CodeFrom(a).Some?
    ensures CodeFrom(a + b) == CodeFrom(a)
  {
    KeptConcat(a, b);
    PrefixOfConcat(Kept(a), Kept(b), CODE_LENGTH);
    hide Kept;
    hide Image;
  }

  lemma PrefixOfConcat(a: seq<Byte>, b: seq<Byte>, n: nat)
    requires n <= |a|
    ensures (a + b)[..n] == a[..n]
  {
  }

  lemma {:induction false} FlattenSplit(buffers: seq<seq<Byte>>, k: nat)
    requires k <= |buffers|
    ensures Flatten(buffers) == Flatten(buffers[..k]) + Flatten(buffers[k..])
    decreases k
  {
    if k == 0 {
      assert buffers[..0] == [] && buffers[0..] == buffers;
    } else {
      FlattenSplit(buffers[1..], k - 1);
      assert buffers[..k][1..] == buffers[1..][..k - 1] && buffers[1..][k - 1..] == buffers[k..];
    }
  }

  /* ---------- The format check ---------- */

  predicate CodeChar(c: char) {
    '0' <= c <= '9' || 'A' <= c <= 'Z' || 'a' <= c <= 'z'
  }

  ghost predicate IsCode(s: string) {
    |s| == CODE_LENGTH && forall c :: c in s ==> CodeChar(c)
  }

  method ValidCode(s: string) returns (ok: bool)
    ensures ok == IsCode(s)
  {
    if |s| != CODE_LENGTH {
      return false;
    }
    for i := 0 to |s|
      invariant forall j :: 0 <= j < i ==> CodeChar(s[j])
    {
      var c := s[i];
      if !('0' <= c <= '9' || 'A' <= c <= 'Z' || 'a' <= c <= 'z') {
        assert c in s;
        return false;
      }
    }
    return true;
  }

  /* ---------- Validity and fairness ---------- */

  /** The position of a code character in the alphabet. */
  function IndexOf(c: char): (n: Byte)
    requires CodeChar(c)
    ensures n < 62
  {
    (if c <= '9' then c as int - '0' as int
     else if c <= 'Z' then c as int - 'A' as int + 10
     else c as int - 'a' as int + 36) as Byte
  }

  lemma DigitAt(n: nat)
    requires n < 10
    ensures |DIGITS| == 10 && DIGITS[n] as int == '0' as int + n
  {
  }

  lemma UpperAt(n: nat)
    requires n < 26
    ensures |UPPER| == 26 && UPPER[n] as int == 'A' as int + n
  {
    if n < 13 {
    } else {
    }
  }

  lemma LowerAt(n: nat)
    requires n < 26
    ensures |LOWER| == 26 && LOWER[n] as int == 'a' as int + n
  {
    if n < 13 {
    } else {
    }
  }

  /** IndexOf is the position in the alphabet. */
  lemma AlphabetAt(n: Byte)
    requires n < 62
    ensures CodeChar(ALPHABET[n]) && IndexOf(ALPHABET[n]) == n
  {
    hide DIGITS;
    hide UPPER;
    hide LOWER;
    var k := n as int;
    DigitAt(if k < 10 then k else 0);
    UpperAt(if 10 <= k < 36 then k - 10 else 0);
    LowerAt(if 36 <= k then k - 36 else 0);
    assert ALPHABET[k] == if k < 10 then DIGITS[k] else if k < 36 then UPPER[k - 10] else LOWER[k - 36];
  }

  lemma AlphabetOf(c: char)
    requires CodeChar(c)
    ensures ALPHABET[IndexOf(c)] == c
  {
    AlphabetAt(IndexOf(c));
    var d := ALPHABET[IndexOf(c)];
    assert IndexOf(d) == IndexOf(c);
  }

  /** The bytes that become the character `c`. */
  function BytesOf(c: char): set<Byte>
    requires CodeChar(c)
  {
    var n := IndexOf(c);
    {n, n + 62, n + 124, n + 186}
  }

  lemma BytesOfChar(c: char, b: Byte)
    requires CodeChar(c)
    ensures b in BytesOf(c) <==> Accepted(b) && CharOf(b) == c
    ensures |BytesOf(c)| == 4
  {
    hide IndexOf;
    hide ALPHABET;
    AlphabetOf(c);
    AlphabetAt(b % 62);
    ModBytes(b, IndexOf(c));
  }

  lemma ModBytes(b: Byte, n: Byte)
    requires n < 62
    ensures b in {n, n + 62, n + 124, n + 186} <==> b < 248 && b % 62 == n
    ensures |{n, n + 62, n + 124, n + 186}| == 4
  {
  }

  /** Every code NewCode returns has the format ValidCode checks. */
  lemma {:induction false} ImageIsCode(bs: seq<Byte>)
    ensures forall c :: c in Image(bs) ==> CodeChar(c)
  {
    if bs != [] {
      AlphabetAt(bs[0] % 62);
      ImageIsCode(bs[1..]);
    }
  }

  lemma NewCodesAreValid(bs: seq<Byte>)
    requires CodeFrom(bs).Some?
    ensures IsCode(CodeFrom(bs).value)
  {
    ImageIsCode(Kept(bs)[..CODE_LENGTH]);
  }

  ghost predicate AllAccepted(bs: seq<Byte>) {
    forall b :: b in bs ==> Accepted(b)
  }

  ghost predicate AllCodeChars(s: string) {
    forall c :: c in s ==> CodeChar(c)
  }

  ghost function Cons(b: Byte, t: set<seq<Byte>>): set<seq<Byte>> {
    set bs | bs in t :: [b] + bs
  }

  /** The accepted byte strings that become the text `s`. */
  ghost function Preimages(s: string): set<seq<Byte>>
    requires AllCodeChars(s)
  {
    if s == "" then {[]}
    else
      var n, t := IndexOf(s[0]), Preimages(s[1..]);
      Cons(n, t) + Cons(n + 62, t) + Cons(n + 124, t) + Cons(n + 186, t)
  }

  lemma ConsMember(b: Byte, rest: seq<Byte>, d: Byte, t: set<seq<Byte>>)
    ensures [b] + rest in Cons(d, t) <==> b == d && rest in t
  {
    assert ([b] + rest)[0] == b && ([b] + rest)[1..] == rest;
    assert forall q :: q in t ==> ([d] + q)[0] == d && ([d] + q)[1..] == q;
  }

  lemma PreimagesCons(s: string, b: Byte, rest: seq<Byte>)
    requires s != "" && AllCodeChars(s)
    ensures AllCodeChars(s[1..])
    ensures [b] + rest in Preimages(s) <==> b in BytesOf(s[0]) && rest in Preimages(s[1..])
  {
    var n, t := IndexOf(s[0]), Preimages(s[1..]);
    ConsMember(b, rest, n, t);
    ConsMember(b, rest, n + 62, t);
    ConsMember(b, rest, n + 124, t);
    ConsMember(b, rest, n + 186, t);
    hide Cons;
    hide IndexOf;
  }

  lemma ImageCons(s: string, b: Byte, rest: seq<Byte>)
    requires s != ""
    ensures Image([b] + rest) == s <==> CharOf(b) == s[0] && Image(rest) == s[1..]
    ensures AllAccepted([b] + rest) <==> Accepted(b) && AllAccepted(rest)
  {
    assert ([b] + rest)[1..] == rest;
    assert s == [s[0]] + s[1..] && forall x: string :: ([CharOf(b)] + x)[1..] == x;
  }

  lemma {:induction false} PreimagesAre(s: string, bs: seq<Byte>)
    requires AllCodeChars(s)
    ensures bs in Preimages(s) <==> AllAccepted(bs) && Image(bs) == s
    decreases |s|
  {
    if s == "" {
    } else if bs == [] {
      NoEmptyPreimage(s);
    } else {
      var b, rest := bs[0], bs[1..];
      assert bs == [b] + rest;
      PreimagesCons(s, b, rest);
      BytesOfChar(s[0], b);
      PreimagesAre(s[1..], rest);
      ImageCons(s, b, rest);
    }
  }

  lemma NoEmptyPreimage(s: string)
    requires s != "" && AllCodeChars(s)
    ensures [] !in Preimages(s)
  {
  }

  lemma {:induction false} ConsSize(b: Byte, t: set<seq<Byte>>)
    ensures |Cons(b, t)| == |t|
    decreases t
  {
    if t == {} {
      assert Cons(b, t) == {};
    } else {
      var bs :| bs in t;
      ConsSize(b, t - {bs});
      assert Cons(b, t) == Cons(b, t - {bs}) + {[b] + bs};
      assert forall q :: q in t ==> ([b] + q)[1..] == q;
      assert [b] + bs !in Cons(b, t - {bs});
    }
  }

  lemma ConsDisjoint(b: Byte, d: Byte, t: set<seq<Byte>>)
    requires b != d
    ensures Cons(b, t) !! Cons(d, t)
  {
    assert forall x :: x in Cons(b, t) ==> |x| > 0 && x[0] == b;
    assert forall x :: x in Cons(d, t) ==> |x| > 0 && x[0] == d;
  }

  function Pow4(n: nat): nat {
    if n == 0 then 1 else 4 * Pow4(n - 1)
  }

  /** The four bytes of the first character keep the preimages of the rest apart. */
  lemma PreimagesSize(s: string)
    requires s != "" && AllCodeChars(s)
    ensures AllCodeChars(s[1..]) && |Preimages(s)| == 4 * |Preimages(s[1..])|
  {
    var n, t := IndexOf(s[0]), Preimages(s[1..]);
    ConsSize(n, t);
    ConsSize(n + 62, t);
    ConsSize(n + 124, t);
    ConsSize(n + 186, t);
    ConsDisjoint(n, n + 62, t);
    ConsDisjoint(n, n + 124, t);
    ConsDisjoint(n, n + 186, t);
    ConsDisjoint(n + 62, n + 124, t);
    ConsDisjoint(n + 62, n + 186, t);
    ConsDisjoint(n + 124, n + 186, t);
  }

  lemma EmptyText()
    ensures AllCodeChars("") && |Preimages("")| == Pow4(0)
  {
  }

  lemma OneCharacterMore(n: nat)
    ensures Pow4(n + 1) == 4 * Pow4(n)
  {
  }

  /** Every text of n code characters comes from 4^n strings of accepted bytes. */
  lemma {:induction false} EveryTextIsEquallyLikely(s: string)
    requires AllCodeChars(s)
    ensures |Preimages(s)| == Pow4(|s|)
    decreases |s|
  {
    hide Preimages;
    hide AllCodeChars;
    hide Pow4;
    if s == "" {
      EmptyText();
    } else {
      PreimagesSize(s);
      OneCharacterMore(|s| - 1);
      EveryTextIsEquallyLikely(s[1..]);
    }
  }

  lemma {:induction false} KeptAll(bs: seq<Byte>)
    requires AllAccepted(bs)
    ensures Kept(bs) == bs
  {
    if bs != [] {
      assert AllAccepted(bs[1..]);
      KeptAll(bs[1..]);
    }
  }

  lemma PreimageOfCode(code: string, bs: seq<Byte>)
    requires IsCode(code)
    ensures bs in Preimages(code) <==> |bs| == CODE_LENGTH && AllAccepted(bs) && CodeFrom(bs) == Some(code)
  {
    PreimagesAre(code, bs);
    hide Preimages;
    if AllAccepted(bs) {
      KeptAll(bs);
      hide Kept;
      hide Image;
      assert |bs| == CODE_LENGTH ==> bs[..CODE_LENGTH] == bs;
    }
  }

  /**
   Rejection sampling is unbiased: each of the 62^8 codes is the result of exactly
   4^8 of the equally likely strings of eight accepted bytes.
   */
  lemma EveryCodeIsEquallyLikely(code: string)
    requires IsCode(code)
    ensures |Preimages(code)| == 65536
    ensures forall bs :: bs in Preimages(code) <==>
      |bs| == CODE_LENGTH && AllAccepted(bs) && CodeFrom(bs) == Some(code)
  {
    hide Preimages;
    hide CodeFrom;
    hide AllAccepted;
    EveryTextIsEquallyLikely(code);
    assert Pow4(8) == 4 * 4 * 4 * 4 * Pow4(4) == 65536;
    forall bs
      ensures bs in Preimages(code) <==> |bs| == CODE_LENGTH && AllAccepted(bs) && CodeFrom(bs) == Some(code)
    {
      PreimageOfCode(code, bs);
    }
  }
}
