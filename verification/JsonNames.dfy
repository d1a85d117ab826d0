/** What becomes of the names of stored keys when a session is saved as JSON.  A name is a raw byte
    string; writing it as JSON replaces every byte that is not part of a UTF-8 sequence. */
module JsonNames {
  import opened Crypto
  import opened RatchetSpec
  import Framing
  import opened Unicode

  const REPLACEMENT: Bytes := [0xEF, 0xBF, 0xBD]

  /** The string that is read back: every stray byte has become a replacement character. */
  function Coerced(b: Bytes): Bytes
    decreases |b|
  {
    if b == [] then []
    else if RuneSize(b) == 0 then REPLACEMENT + Coerced(b[1..])
    else b[..RuneSize(b)] + Coerced(b[RuneSize(b)..])
  }

  lemma {:induction false} CoercedLength(b: Bytes)
    ensures |Coerced(b)| >= |b|
    ensures Utf8(b) ==> Coerced(b) == b
    ensures !Utf8(b) ==> |Coerced(b)| > |b|
    decreases |b|
  {
    hide RuneSize;
    if b != [] {
      var n := if RuneSize(b) == 0 then 1 else RuneSize(b);
      CoercedLength(b[n..]);
      assert b == b[..n] + b[n..];
    }
  }

  /** What is read back is UTF-8, and the replacement character is U+FFFD. */
  lemma {:induction false} CoercedIsUtf8(b: Bytes)
    ensures Utf8(Coerced(b)) && Numbers(REPLACEMENT) == EncodeRune(0xFFFD)
    decreases |b|
  {
    ReplacementIsRune();
    hide RuneSize, EncodeRune, Numbers;
    if b != [] {
      var n := if RuneSize(b) == 0 then 1 else RuneSize(b);
      CoercedIsUtf8(b[n..]);
      var head := if RuneSize(b) == 0 then REPLACEMENT else b[..n];
      assert RuneSize(head + Coerced(b[n..])) == |head| by {
        if RuneSize(b) > 0 {
          RuneInFront(b, Coerced(b[n..]));
        } else {
          ReplacementInFront(Coerced(b[n..]));
        }
      }
      assert (head + Coerced(b[n..]))[|head|..] == Coerced(b[n..]);
    }
  }

  lemma ReplacementIsRune()
    ensures Numbers(REPLACEMENT) == EncodeRune(0xFFFD)
  {
    assert Framing.Number(0xEF) == 0xEF && Framing.Number(0xBF) == 0xBF && Framing.Number(0xBD) == 0xBD;
  }

  lemma ReplacementInFront(rest: Bytes)
    ensures RuneSize(REPLACEMENT + rest) == 3
  {
  }

  lemma RuneInFront(b: Bytes, rest: Bytes)
    requires RuneSize(b) > 0
    ensures RuneSize(b[..RuneSize(b)] + rest) == RuneSize(b)
  {
  }

  // Names

  /** These public values as 32 bytes each, no two alike. */
  ghost predicate Coding(code: Point -> Bytes, pubs: set<Point>) {
    && (forall p <- pubs :: |code(p)| == 32)
    && (forall p, q :: p in pubs && q in pubs && code(p) == code(q) ==> p == q)
  }

  /** Such codings exist: a scalar as its 32 bytes. */
  function ScalarCode(p: Point): Bytes {
    if p.Pub? then Framing.BigEndian(p.scalar, 32) else Framing.BigEndian(p.tag, 32)
  }

  lemma ScalarCodeIsCoding(pubs: set<Point>)
    requires forall p <- pubs :: p.Pub? && p.scalar < Framing.Pow256(32)
    ensures Coding(ScalarCode, pubs)
  {
    hide Framing.BigEndian, Framing.Pow256;
    forall p, q | p in pubs && q in pubs && ScalarCode(p) == ScalarCode(q)
      ensures p == q
    {
      Framing.BigEndianRoundTrip(p.scalar, 32);
      Framing.BigEndianRoundTrip(q.scalar, 32);
    }
  }

  function Name(code: Point -> Bytes, id: SkipId): Bytes {
    code(id.pub) + Framing.BigEndian(id.index, 4)
  }

  /** The entries of `saved` after writing them as JSON and reading them back.  Names that become
      equal share one entry, which holds the key of one of them. */
  ghost predicate JsonCopy(saved: map<Bytes, Key>, restored: map<Bytes, Key>) {
    && (forall n <- saved :: Coerced(n) in restored)
    && (forall n' <- restored :: exists n <- saved :: Coerced(n) == n' && restored[n'] == saved[n])
  }

  /** The cache under its raw names. */
  ghost predicate SavedAs(code: Point -> Bytes, m: map<SkipId, Key>, saved: map<Bytes, Key>) {
    && (forall id <- m :: Name(code, id) in saved && saved[Name(code, id)] == m[id])
    && (forall n <- saved :: exists id <- m :: Name(code, id) == n)
  }

  lemma NamesDiffer(code: Point -> Bytes, pubs: set<Point>, a: SkipId, b: SkipId)
    requires Coding(code, pubs) && a.pub in pubs && b.pub in pubs
    ensures |Name(code, a)| == 36
    ensures Name(code, a) == Name(code, b) ==> a == b
  {
    if Name(code, a) == Name(code, b) {
      assert Name(code, a)[..32] == code(a.pub) && Name(code, b)[..32] == code(b.pub);
      assert Name(code, a)[32..] == Framing.BigEndian(a.index, 4);
      assert Name(code, b)[32..] == Framing.BigEndian(b.index, 4);
      Framing.BigEndianRoundTrip(a.index, 4);
      Framing.BigEndianRoundTrip(b.index, 4);
    }
  }

  ghost function SomeId(code: Point -> Bytes, m: map<SkipId, Key>, name: Bytes): (id: SkipId)
    requires exists id <- m :: Name(code, id) == name
    ensures id in m && Name(code, id) == name
  {
    var id :| id in m && Name(code, id) == name;
    id
  }

  ghost function SomeName(saved: map<Bytes, Key>, coerced: Bytes): (n: Bytes)
    requires exists n <- saved :: Coerced(n) == coerced
    ensures n in saved && Coerced(n) == coerced
  {
    var n :| n in saved && Coerced(n) == coerced;
    n
  }

  /** Every cache can be saved and read back. */
  lemma CopyExists(code: Point -> Bytes, pubs: set<Point>, m: map<SkipId, Key>)
    returns (saved: map<Bytes, Key>, restored: map<Bytes, Key>)
    requires Coding(code, pubs) && forall id <- m :: id.pub in pubs
    ensures SavedAs(code, m, saved) && JsonCopy(saved, restored)
  {
    hide Name, Coerced, Coding;
    var names := set id <- m :: Name(code, id);
    saved := map n | n in names :: m[SomeId(code, m, n)];
    forall id <- m
      ensures saved[Name(code, id)] == m[id]
    {
      NamesDiffer(code, pubs, id, SomeId(code, m, Name(code, id)));
    }
    var texts := set n <- saved :: Coerced(n);
    restored := map x | x in texts :: saved[SomeName(saved, x)];
  }

  lemma NameSurvives(code: Point -> Bytes, pubs: set<Point>, m: map<SkipId, Key>, saved: map<Bytes, Key>,
                     restored: map<Bytes, Key>, id: SkipId)
    requires Coding(code, pubs) && id.pub in pubs && forall i <- m :: i.pub in pubs
    requires SavedAs(code, m, saved) && JsonCopy(saved, restored)
    ensures Name(code, id) in restored <==> id in m && Utf8(Name(code, id))
    ensures id in m && Name(code, id) in restored ==> restored[Name(code, id)] == m[id]
  {
    hide Utf8, Coerced, Framing.BigEndian;
    var name := Name(code, id);
    NamesDiffer(code, pubs, id, id);
    CoercedLength(name);
    if name in restored {
      var n :| n in saved && Coerced(n) == name && restored[name] == saved[n];
      var from :| from in m && Name(code, from) == n;
      NamesDiffer(code, pubs, from, id);
      CoercedLength(n);
    }
  }

  lemma AllSurvive(code: Point -> Bytes, m: map<SkipId, Key>, saved: map<Bytes, Key>, restored: map<Bytes, Key>)
    requires SavedAs(code, m, saved) && JsonCopy(saved, restored) && forall id <- m :: Utf8(Name(code, id))
    ensures restored == saved
  {
    hide Utf8, Coerced, Name;
    forall n <- saved
      ensures Coerced(n) == n
    {
      var id :| id in m && Name(code, id) == n;
      CoercedLength(n);
    }
  }

  /** For any finite set of public values, among them those of the stored keys: a copy by way of JSON
      finds exactly the stored keys whose names are UTF-8, and it has the entries of the original
      if and only if all names are. */
  lemma JsonKeepsExactly(code: Point -> Bytes, pubs: set<Point>, m: map<SkipId, Key>, saved: map<Bytes, Key>,
                         restored: map<Bytes, Key>)
    requires Coding(code, pubs) && forall id <- m :: id.pub in pubs
    requires SavedAs(code, m, saved) && JsonCopy(saved, restored)
    ensures forall id: SkipId | id.pub in pubs :: Name(code, id) in restored <==> id in m && Utf8(Name(code, id))
    ensures forall id <- m :: Name(code, id) in restored ==> restored[Name(code, id)] == m[id]
    ensures restored == saved <==> forall id <- m :: Utf8(Name(code, id))
  {
    hide Utf8, Coerced, Name, Coding, JsonCopy;
    forall id: SkipId | id.pub in pubs
      ensures Name(code, id) in restored <==> id in m && Utf8(Name(code, id))
      ensures id in m && Name(code, id) in restored ==> restored[Name(code, id)] == m[id]
    {
      NameSurvives(code, pubs, m, saved, restored, id);
    }
    if forall id <- m :: Utf8(Name(code, id)) {
      AllSurvive(code, m, saved, restored);
    }
  }

  // Names that never survive

  lemma {:induction false} LastByteHasCompany(b: Bytes)
    requires Utf8(b) && |b| >= 2 && b[|b| - 1] >= 0x80
    ensures b[|b| - 2] >= 0x80
    decreases |b|
  {
    var n := RuneSize(b);
    if n < |b| {
      if |b| - n >= 2 {
        LastByteHasCompany(b[n..]);
      }
    }
  }

  lemma TwoBytes()
    ensures Framing.Byte(0) == 0 && Framing.Byte(128) == 0x80
  {
  }

  lemma LastTwoBytes()
    ensures Framing.BigEndian(128, 4)[2] == 0 && Framing.BigEndian(128, 4)[3] == 0x80
  {
    TwoBytes();
    hide Framing.Byte;
    assert Framing.BigEndian(128, 4) == Framing.BigEndian(0, 3) + [Framing.Byte(128)];
    assert Framing.BigEndian(0, 3) == Framing.BigEndian(0, 2) + [Framing.Byte(0)];
  }

  /** Whatever the sender key is, the name of message 128 is no UTF-8, so its key is lost. */
  lemma Message128IsLost(code: Point -> Bytes, pub: Point)
    requires |code(pub)| == 32
    ensures !Utf8(Name(code, SkipId(pub, 128)))
  {
    hide Utf8, Framing.BigEndian;
    var name := Name(code, SkipId(pub, 128));
    LastTwoBytes();
    if Utf8(name) {
      LastByteHasCompany(name);
    }
  }
}
