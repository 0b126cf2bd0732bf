/** The accepted-authority manifest (src/agent-bootstrap.js). The digest
    "sha256:" + hex is a function on text; localeCompare is any preorder on text, given by "compares as at most". */
module AuthorityManifest {
  import opened Ordering
  import opened StableJson
  import opened CanonicalPrinting

  datatype Pointer = Pointer(path: Text, hash: Text)

  type Collation = (Text, Text) -> bool

  predicate PointerLeq(collate: Collation, a: Pointer, b: Pointer) {
    if collate(a.path, b.path) && collate(b.path, a.path) then collate(a.hash, b.hash) else collate(a.path, b.path)
  }

  function ByPointer(collate: Collation): (Pointer, Pointer) -> bool {
    (a: Pointer, b: Pointer) => PointerLeq(collate, a, b)
  }

  /** canonicalPathHeadPointers */
  function Canonical(collate: Collation, heads: seq<Pointer>): seq<Pointer> { Sort(heads, ByPointer(collate)) }

  function Ascii(s: string): (t: Text)
    requires forall i :: 0 <= i < |s| ==> s[i] < 128 as char
    ensures |t| == |s|
  {
    seq(|s|, i requires 0 <= i < |s| => s[i] as int)
  }

  function Decimal(n: nat): (t: Text)
    ensures |t| > 0
  {
    if n < 10 then [48 + n] else Decimal(n / 10) + [48 + n % 10]
  }

  function PointerJson(p: Pointer): Json {
    Obj([Member(Ascii("path"), Str(p.path)), Member(Ascii("stone_hash"), Str(p.hash))])
  }

  function PointersJson(pointers: seq<Pointer>): Json { Arr(Map(pointers, PointerJson)) }

  function Payload(chain: Text, head: Text, count: nat, digest: Text): Json {
    Obj([Member(Ascii("schema"), Str(Ascii("cairnstone-sparse-authority-v1"))), Member(Ascii("chain"), Str(chain)),
         Member(Ascii("chain_head"), Str(head)), Member(Ascii("path_head_count"), Num(Decimal(count))),
         Member(Ascii("path_heads_digest"), Str(digest))])
  }

  datatype Manifest = Manifest(id: Text, digest: Text, fullCount: nat)

  /** computeAcceptedAuthorityManifest */
  function Compute(collate: Collation, digest: Text -> Text, chain: Text, head: Text, heads: seq<Pointer>): Manifest {
    var pointers := Canonical(collate, heads);
    var headsDigest := digest(Print(PointersJson(pointers)));
    Manifest(digest(Print(Payload(chain, head, |pointers|, headsDigest))), headsDigest, |pointers|)
  }

  ghost predicate Injective(h: Text -> Text) { forall x, y :: h(x) == h(y) ==> x == y }

  /*** The payloads are well formed, so printing them is canonical ***/

  predicate AllDigits(t: Text) { forall i :: 0 <= i < |t| ==> IsDigit(t[i]) }

  lemma {:induction false} DecimalDigits(n: nat)
    ensures AllDigits(Decimal(n)) && (n > 0 ==> Decimal(n)[0] != 48)
  {
    if n >= 10 { DecimalDigits(n / 10); }
  }

  lemma {:induction false} DropAllDigits(t: Text)
    requires AllDigits(t)
    ensures DropDigits(t) == []
  {
    if t != [] { DropAllDigits(t[1..]); }
  }

  lemma DecimalIsNumber(n: nat)
    ensures IsNumber(Decimal(n))
  {
    DecimalDigits(n);
    DropAllDigits(Decimal(n));
    assert Decimal(0)[1..] == [];
  }

  lemma PointersWellFormed(pointers: seq<Pointer>)
    ensures WellFormed(PointersJson(pointers))
  {
    forall p: Pointer ensures WellFormed(PointerJson(p)) {
      assert |Ascii("path")| != |Ascii("stone_hash")|;
    }
  }

  lemma PayloadKeys(chain: Text, head: Text, count: nat, digest: Text)
    ensures DistinctKeys(Payload(chain, head, count, digest).members)
  {
    assert |Ascii("schema")| == 6 && |Ascii("chain")| == 5 && |Ascii("chain_head")| == 10;
    assert |Ascii("path_head_count")| == 15 && |Ascii("path_heads_digest")| == 17;
  }

  lemma PayloadWellFormed(chain: Text, head: Text, count: nat, digest: Text)
    ensures WellFormed(Payload(chain, head, count, digest))
  {
    DecimalIsNumber(count);
    PayloadKeys(chain, head, count, digest);
  }

  /** Objects with one key list that are equal up to order have equal fields. */
  lemma SameField(a: seq<Member>, b: seq<Member>, i: nat)
    requires Same(Obj(a), Obj(b)) && DistinctKeys(b) && i < |a| && i < |b| && a[i].key == b[i].key
    ensures Same(a[i].value, b[i].value)
  {
    assert SameIn(a[i], b);
    var j :| 0 <= j < |b| && a[i].key == b[j].key && Same(a[i].value, b[j].value);
  }

  lemma PointersInjective(x: seq<Pointer>, y: seq<Pointer>)
    requires Print(PointersJson(x)) == Print(PointersJson(y))
    ensures x == y
  {
    PointersWellFormed(x);
    PointersWellFormed(y);
    PrintCanonical(PointersJson(x), PointersJson(y));
    forall i | 0 <= i < |x| ensures x[i] == y[i] {
      var a, b := PointerJson(x[i]), PointerJson(y[i]);
      assert Same(Map(x, PointerJson)[i], Map(y, PointerJson)[i]);
      assert WellFormed(Map(y, PointerJson)[i]);
      SameField(a.members, b.members, 0);
      SameField(a.members, b.members, 1);
    }
  }

  lemma PayloadInjective(chain: Text, head: Text, n: nat, digest: Text, chain': Text, head': Text, n': nat,
                         digest': Text)
    requires Print(Payload(chain, head, n, digest)) == Print(Payload(chain', head', n', digest'))
    ensures chain == chain' && head == head' && digest == digest'
  {
    var a, b := Payload(chain, head, n, digest), Payload(chain', head', n', digest');
    PayloadWellFormed(chain, head, n, digest);
    PayloadWellFormed(chain', head', n', digest');
    PrintCanonical(a, b);
    SameField(a.members, b.members, 1);
    SameField(a.members, b.members, 2);
    SameField(a.members, b.members, 4);
  }

  lemma PointerOrder(collate: Collation)
    requires Preorder(collate)
    ensures Preorder(ByPointer(collate))
  {
    var leq := ByPointer(collate);
    forall x: Pointer, y: Pointer ensures leq(x, y) || leq(y, x) {
      assert collate(x.path, y.path) || collate(y.path, x.path);
      assert collate(x.hash, y.hash) || collate(y.hash, x.hash);
    }
    forall x: Pointer, y: Pointer, z: Pointer | leq(x, y) && leq(y, z) ensures leq(x, z) {
      assert collate(x.path, y.path) && collate(y.path, z.path);
      assert collate(x.path, z.path);
      if collate(z.path, x.path) {
        assert collate(y.path, x.path) && collate(z.path, y.path);
        assert collate(x.hash, z.hash);
      }
    }
  }

  lemma SameDigest(collate: Collation, h: Text -> Text, chain: Text, head: Text, heads: seq<Pointer>,
                   chain': Text, head': Text, heads': seq<Pointer>)
    requires Injective(h)
    ensures Compute(collate, h, chain, head, heads).digest == Compute(collate, h, chain', head', heads').digest
            <==> Canonical(collate, heads) == Canonical(collate, heads')
  {
    var x, y := Canonical(collate, heads), Canonical(collate, heads');
    if h(Print(PointersJson(x))) == h(Print(PointersJson(y))) { PointersInjective(x, y); }
  }

  /** The order in which path heads are listed never reaches the manifest exactly when no two different ones compare as
      equal: without such a pair whatever the digest, and with one some order shows under a digest that never
      collides. */
  lemma ManifestOrderFree(collate: Collation, h: Text -> Text, chain: Text, head: Text, heads: seq<Pointer>)
    requires Preorder(collate)
    ensures AntisymmetricOn(heads, ByPointer(collate)) ==>
              forall heads' :: multiset(heads') == multiset(heads) ==>
                Compute(collate, h, chain, head, heads') == Compute(collate, h, chain, head, heads)
    ensures Injective(h) && !AntisymmetricOn(heads, ByPointer(collate)) ==>
              exists heads' :: multiset(heads') == multiset(heads)
                && Compute(collate, h, chain, head, heads').id != Compute(collate, h, chain, head, heads).id
  {
    PointerOrder(collate);
    if AntisymmetricOn(heads, ByPointer(collate)) {
      forall heads' | multiset(heads') == multiset(heads)
        ensures Compute(collate, h, chain, head, heads') == Compute(collate, h, chain, head, heads)
      {
        SortCanonical(heads, heads', ByPointer(collate));
      }
    } else if Injective(h) {
      var heads' := TiesShow(heads, ByPointer(collate));
      ManifestIdentity(collate, h, chain, head, heads, chain, head, heads');
    }
  }

  /** With a digest that never collides, the id is the same exactly for the same chain, chain head and list in pointer
      order, and the heads digest exactly for the same list in pointer order; that is the same multiset of
      (path, hash) when no two different ones compare as equal. */
  lemma ManifestIdentity(collate: Collation, h: Text -> Text, chain: Text, head: Text, heads: seq<Pointer>,
                         chain': Text, head': Text, heads': seq<Pointer>)
    requires Preorder(collate) && Injective(h)
    ensures var m, m' := Compute(collate, h, chain, head, heads), Compute(collate, h, chain', head', heads');
      && (m.digest == m'.digest <==> Canonical(collate, heads) == Canonical(collate, heads'))
      && (m.id == m'.id <==> chain == chain' && head == head' && m.digest == m'.digest)
      && (m.digest == m'.digest ==> multiset(heads) == multiset(heads'))
      && (AntisymmetricOn(heads, ByPointer(collate)) ==>
          (m.digest == m'.digest <==> multiset(heads) == multiset(heads')))
      && m.fullCount == |heads|
  {
    var m, m' := Compute(collate, h, chain, head, heads), Compute(collate, h, chain', head', heads');
    var x, y := Canonical(collate, heads), Canonical(collate, heads');
    PointerOrder(collate);
    SortMultiset(heads, ByPointer(collate));
    SortMultiset(heads', ByPointer(collate));
    SameDigest(collate, h, chain, head, heads, chain', head', heads');
    if m.id == m'.id { PayloadInjective(chain, head, |x|, m.digest, chain', head', |y|, m'.digest); }
    if AntisymmetricOn(heads, ByPointer(collate)) { SortCanonical(heads, heads', ByPointer(collate)); }
  }
}
