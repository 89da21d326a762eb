/** The keys of the shared Redis: decimal rendering, key formats, and why no two of them collide. */
module Keys {
  import opened Domain

  predicate IsDigit(c: char) {
    '0' <= c <= '9'
  }

  function Digit(n: nat): (c: char)
    requires n < 10
    ensures IsDigit(c)
  {
    '0' + n as char
  }

  function DecNat(n: nat): string {
    if n < 10 then [Digit(n)] else DecNat(n / 10) + [Digit(n % 10)]
  }

  /** %d */
  function Dec(n: int): string {
    if n < 0 then "-" + DecNat(-n) else DecNat(n)
  }

  function NumberOf(s: string): int {
    if s == "" then 0 else NumberOf(s[..|s| - 1]) * 10 + (s[|s| - 1] as int - '0' as int)
  }

  lemma {:induction false} DecNatRoundTrip(n: nat)
    ensures DecNat(n) != "" && forall c :: c in DecNat(n) ==> IsDigit(c)
    ensures NumberOf(DecNat(n)) == n
  {
    if n >= 10 {
      DecNatRoundTrip(n / 10);
      var s := DecNat(n);
      assert s[..|s| - 1] == DecNat(n / 10);
    } else {
      assert DecNat(n)[..0] == "";
    }
  }

  /** Only '-' and digits. */
  predicate DecChar(c: char) {
    c == '-' || IsDigit(c)
  }

  lemma DecInjective(a: int, b: int)
    ensures Dec(a) == Dec(b) <==> a == b
    ensures Dec(a) != "" && forall c :: c in Dec(a) ==> DecChar(c)
  {
    DecNatRoundTrip(if a < 0 then -a else a);
    DecNatRoundTrip(if b < 0 then -b else b);
    if Dec(a) == Dec(b) {
      assert IsDigit(DecNat(if a < 0 then -a else a)[0]) && IsDigit(DecNat(if b < 0 then -b else b)[0]);
      assert Dec(a)[0] == Dec(b)[0];
      if a < 0 {
        assert Dec(a)[1..] == DecNat(-a) && Dec(b)[1..] == DecNat(-b);
      }
    }
  }

  /* ---------- Splitting a key at a separator ---------- */

  /** A prefix free of `sep` before the first `sep` is determined by the string. */
  lemma SplitFirst(a: string, b: string, x: string, y: string, sep: char)
    requires sep !in a && sep !in b
    requires a + [sep] + x == b + [sep] + y
    ensures a == b && x == y
  {
    var s := a + [sep] + x;
    assert forall i :: 0 <= i < |a| ==> s[i] == a[i] && s[i] != sep;
    assert forall i :: 0 <= i < |b| ==> s[i] == b[i] && s[i] != sep;
    assert s[|a|] == sep && s[|b|] == sep;
    assert a == s[..|a|] == b && x == s[|a| + 1..] == y;
  }

  /** A suffix free of `sep` after the last `sep` is determined by the string. */
  lemma SplitLast(a: string, b: string, x: string, y: string, sep: char)
    requires sep !in x && sep !in y
    requires a + [sep] + x == b + [sep] + y
    ensures a == b && x == y
  {
    var s := a + [sep] + x;
    assert forall i :: |a| < i < |s| ==> s[i] == x[i - |a| - 1] && s[i] != sep;
    assert forall i :: |b| < i < |s| ==> s[i] == y[i - |b| - 1] && s[i] != sep;
    assert s[|a|] == sep && s[|b|] == sep;
    assert a == s[..|a|] == b && x == s[|a| + 1..] == y;
  }

  lemma CancelPrefix(p: string, x: string, y: string)
    requires p + x == p + y
    ensures x == y
  {
    assert x == (p + x)[|p|..] && y == (p + y)[|p|..];
  }

  /* ---------- Key formats ---------- */

  const DIRTY_KEY := "share:dirty"

  /** The hash tag that keeps one link's counters in one cluster slot. */
  function Tag(id: int): string {
    "share:{" + Dec(id) + "}"
  }

  function ViewsKey(id: int): string {
    Tag(id) + ":views"
  }

  function SeenKey(id: int, visitor: string): string {
    Tag(id) + (":seen:" + visitor)
  }

  function UniqueKey(id: int, day: string): string {
    Tag(id) + (":uv:" + day)
  }

  function LinkKey(code: string): string {
    "share:link:" + code
  }

  function SnapshotKey(resourceType: string, id: int): string {
    "submission:snapshot:" + resourceType + ":" + Dec(id)
  }

  function LimiterKey(key: string, bucket: int): string {
    "rl:" + key + ":" + Dec(bucket)
  }

  /** %d:%s, the in-memory tracker's dedupe key. */
  function PairKey(id: int, visitor: string): string {
    Dec(id) + ":" + visitor
  }

  lemma SmallNumbers()
    ensures Dec(7) == "7" && Dec(-5) == "-5" && Dec(42) == "42"
  {
    assert DecNat(4) == "4";
  }

  /** The formats, by example. */
  lemma CounterKeyFormats()
    ensures ViewsKey(7) == "share:{7}:views" && SeenKey(7, "u9") == "share:{7}:seen:u9"
    ensures UniqueKey(7, "20240131") == "share:{7}:uv:20240131"
  {
    SmallNumbers();
    hide Dec;
    assert Tag(7) == "share:{7}";
  }

  lemma OtherKeyFormats()
    ensures LinkKey("Ab3dE6gH") == "share:link:Ab3dE6gH" && LimiterKey("share:1.2.3.4", -5) == "rl:share:1.2.3.4:-5"
    ensures SnapshotKey("test_result", 42) == "submission:snapshot:test_result:42"
    ensures DIRTY_KEY == "share:dirty" && PairKey(7, "u9") == "7:u9"
  {
    SmallNumbers();
    hide Dec;
  }

  /** The keys the service uses, by what they stand for. */
  datatype Key =
    | Views(id: int)
    | Seen(id: int, visitor: string)
    | Unique(id: int, day: string)
    | Dirty
    | LinkEntry(code: string)
    | SnapshotEntry(resourceType: string, id: int)
    | Bucket(client: string, bucket: int)

  function Render(k: Key): string {
    match k
    case Views(id) => ViewsKey(id)
    case Seen(id, visitor) => SeenKey(id, visitor)
    case Unique(id, day) => UniqueKey(id, day)
    case Dirty => DIRTY_KEY
    case LinkEntry(code) => LinkKey(code)
    case SnapshotEntry(rt, id) => SnapshotKey(rt, id)
    case Bucket(client, bucket) => LimiterKey(client, bucket)
  }

  /** The characters that tell the key families apart. */
  lemma Families(k: Key)
    ensures |Render(k)| > 2
    ensures Render(k)[0] == (if k.Bucket? then 'r' else 's')
    ensures k.SnapshotEntry? <==> Render(k)[1] == 'u'
    ensures !k.Bucket? && !k.SnapshotEntry? ==>
      && |Render(k)| > 6
      && Render(k)[6] == (if k.Dirty? then 'd' else if k.LinkEntry? then 'l' else '{')
  {
  }

  /** The keys of one link's counters share the hash tag {id}; what follows tells them apart. */
  predicate Tagged(k: Key) {
    k.Views? || k.Seen? || k.Unique?
  }

  function Tail(k: Key): (s: string)
    requires Tagged(k)
    ensures |s| > 1 && s[1] == if k.Views? then 'v' else if k.Seen? then 's' else 'u'
  {
    match k
    case Views(_) => ":views"
    case Seen(_, visitor) => ":seen:" + visitor
    case Unique(_, day) => ":uv:" + day
  }

  lemma TailInjective(a: Key, b: Key)
    requires Tagged(a) && Tagged(b) && a.id == b.id && Tail(a) == Tail(b)
    ensures a == b
  {
    if a.Seen? {
      CancelPrefix(":seen:", a.visitor, b.visitor);
    } else if a.Unique? {
      CancelPrefix(":uv:", a.day, b.day);
    }
  }

  lemma TagThen(id: int, tail: string)
    ensures Tag(id) + tail == "share:{" + (Dec(id) + ['}'] + tail)
  {
    var p, d := "share:{", Dec(id);
    assert Tag(id) == p + d + "}";
    assert p + d + "}" + tail == p + (d + ['}'] + tail);
  }

  lemma TaggedRender(k: Key)
    requires Tagged(k)
    ensures Render(k) == "share:{" + (Dec(k.id) + ['}'] + Tail(k))
  {
    TagThen(k.id, Tail(k));
    hide Tag;
    hide Dec;
  }

  lemma TaggedInjective(a: Key, b: Key)
    requires Tagged(a) && Tagged(b) && Render(a) == Render(b)
    ensures a == b
  {
    hide Render;
    hide Tail;
    TaggedRender(a);
    TaggedRender(b);
    CancelPrefix("share:{", Dec(a.id) + ['}'] + Tail(a), Dec(b.id) + ['}'] + Tail(b));
    DecInjective(a.id, b.id);
    DecInjective(b.id, a.id);
    SplitFirst(Dec(a.id), Dec(b.id), Tail(a), Tail(b), '}');
    TailInjective(a, b);
  }

  lemma SnapshotParts(rt: string, id: int)
    ensures SnapshotKey(rt, id) == "submission:snapshot:" + (rt + [':'] + Dec(id))
  {
    hide Dec;
    var p, d := "submission:snapshot:", Dec(id);
    assert p + rt + ":" + d == p + (rt + [':'] + d);
  }

  lemma LimiterParts(client: string, bucket: int)
    ensures LimiterKey(client, bucket) == "rl:" + (client + [':'] + Dec(bucket))
  {
    hide Dec;
    var p, d := "rl:", Dec(bucket);
    assert p + client + ":" + d == p + (client + [':'] + d);
  }

  /** A name, a colon and a number determine the name and the number, whatever the name contains. */
  lemma NameAndNumber(a: string, m: int, b: string, n: int)
    requires a + [':'] + Dec(m) == b + [':'] + Dec(n)
    ensures a == b && m == n
  {
    DecInjective(m, n);
    DecInjective(n, m);
    hide Dec;
    SplitLast(a, b, Dec(m), Dec(n), ':');
  }

  lemma SnapshotInjective(rt: string, id: int, rt': string, id': int)
    requires SnapshotKey(rt, id) == SnapshotKey(rt', id')
    ensures rt == rt' && id == id'
  {
    SnapshotParts(rt, id);
    SnapshotParts(rt', id');
    hide SnapshotKey;
    hide Dec;
    CancelPrefix("submission:snapshot:", rt + [':'] + Dec(id), rt' + [':'] + Dec(id'));
    NameAndNumber(rt, id, rt', id');
  }

  lemma LimiterInjective(c: string, n: int, c': string, n': int)
    requires LimiterKey(c, n) == LimiterKey(c', n')
    ensures c == c' && n == n'
  {
    LimiterParts(c, n);
    LimiterParts(c', n');
    hide LimiterKey;
    hide Dec;
    CancelPrefix("rl:", c + [':'] + Dec(n), c' + [':'] + Dec(n'));
    NameAndNumber(c, n, c', n');
  }

  lemma UntaggedInjective(a: Key, b: Key)
    requires !Tagged(a) && !Tagged(b) && Render(a) == Render(b)
    requires a.Dirty? == b.Dirty? && a.LinkEntry? == b.LinkEntry? && a.SnapshotEntry? == b.SnapshotEntry?
    ensures a == b
  {
    hide SnapshotKey;
    hide LimiterKey;
    if a.LinkEntry? {
      CancelPrefix("share:link:", a.code, b.code);
    } else if a.SnapshotEntry? {
      SnapshotInjective(a.resourceType, a.id, b.resourceType, b.id);
    } else if a.Bucket? {
      LimiterInjective(a.client, a.bucket, b.client, b.bucket);
    }
  }

  /** No two keys of the service are the same Redis key, whatever ids, codes, visitors and addresses they carry. */
  lemma KeysNeverAlias(a: Key, b: Key)
    ensures Render(a) == Render(b) <==> a == b
  {
    hide Render;
    if Render(a) == Render(b) {
      Families(a);
      Families(b);
      if Tagged(a) {
        TaggedInjective(a, b);
      } else {
        UntaggedInjective(a, b);
      }
    }
  }

  lemma PairKeyInjective(a: int, v: string, b: int, w: string)
    ensures PairKey(a, v) == PairKey(b, w) <==> a == b && v == w
  {
    if PairKey(a, v) == PairKey(b, w) {
      DecInjective(a, b);
      DecInjective(b, a);
      SplitFirst(Dec(a), Dec(b), v, w, ':');
    }
  }

  /* ---------- Viewer keys ---------- */

  function ViewerKey(v: Viewer): string {
    if v.userId > 0 then "u" + Dec(v.userId) else "a" + v.digest
  }

  /** The key under which the owner of a link would be counted. */
  function OwnerKey(l: Link): string {
    "u" + Dec(l.ownerId)
  }

  /** A view that counts never carries the key of the link's owner. */
  lemma OwnersNeverCount(l: Link, v: Viewer)
    requires l.CountsViewFrom(v)
    ensures ViewerKey(v) != OwnerKey(l)
  {
    DecInjective(v.userId, l.ownerId);
    if v.userId > 0 {
      assert ViewerKey(v)[1..] == Dec(v.userId) && OwnerKey(l)[1..] == Dec(l.ownerId);
    } else {
      assert ViewerKey(v)[0] == 'a' && OwnerKey(l)[0] == 'u';
    }
  }

  /** Viewers share a key only if they are the same user, or both anonymous with the same digest. */
  lemma ViewerKeysInjective(v: Viewer, w: Viewer)
    ensures ViewerKey(v) == ViewerKey(w) <==>
      if v.userId > 0 then w.userId == v.userId else w.userId <= 0 && w.digest == v.digest
  {
    DecInjective(v.userId, w.userId);
    assert ViewerKey(v)[0] == (if v.userId > 0 then 'u' else 'a');
    assert ViewerKey(w)[0] == (if w.userId > 0 then 'u' else 'a');
    assert ViewerKey(v)[1..] == if v.userId > 0 then Dec(v.userId) else v.digest;
    assert ViewerKey(w)[1..] == if w.userId > 0 then Dec(w.userId) else w.digest;
  }
}
