/** The content identity of a file tree: a sorted inventory, length-delimited and hashed. */
module TreeIdentity {
  import opened Records

  type Text = seq<Octet>

  /** One line of the inventory, both parts already encoded. */
  datatype Item = Item(name: Text, identity: Text)

  /** An entry below a configured directory: a link that leaves the root, and what the entry is when it is a file. */
  datatype Child = Child(name: Text, escapes: bool, file: Option<Option<Text>>)

  /** What a configured path resolves to; an identity of none is a file that cannot be read. */
  datatype Found =
    | Outside | Missing(name: Text) | File(name: Text, identity: Option<Text>) | Directory(children: seq<Child>)

  datatype Error = PathEscape | SymlinkEscape | IdentityRead | LengthOverflow

  /** The ASCII bytes of MISSING. */
  const MISSING: Text := [77, 73, 83, 83, 73, 78, 71]

  /* ---- The inventory ---- */

  function ChildItems(cs: seq<Child>): Result<seq<Item>, Error> {
    if cs == [] then Ok([])
    else
      var front :- ChildItems(cs[..|cs| - 1]);
      var c := cs[|cs| - 1];
      if c.escapes then Err(SymlinkEscape)
      else if c.file.None? then Ok(front)
      else if c.file.value.None? then Err(IdentityRead)
      else Ok(front + [Item(c.name, c.file.value.value)])
  }

  function PathItems(f: Found): Result<seq<Item>, Error> {
    match f
    case Outside => Err(PathEscape)
    case Missing(name) => Ok([Item(name, MISSING)])
    case File(name, identity) => if identity.None? then Err(IdentityRead) else Ok([Item(name, identity.value)])
    case Directory(children) => ChildItems(children)
  }

  function Inventory(fs: seq<Found>): Result<seq<Item>, Error> {
    if fs == [] then Ok([])
    else
      var front :- Inventory(fs[..|fs| - 1]);
      var last :- PathItems(fs[|fs| - 1]);
      Ok(front + last)
  }

  method ReadDirectory(cs: seq<Child>) returns (r: Result<seq<Item>, Error>)
    ensures r == ChildItems(cs)
  {
    var items: seq<Item> := [];
    for i := 0 to |cs|
      invariant ChildItems(cs[..i]) == Ok(items)
    {
      assert cs[..i + 1][..i] == cs[..i];
      if cs[i].escapes {
        ChildrenStop(cs, i);
        return Err(SymlinkEscape);
      }
      if cs[i].file.Some? {
        if cs[i].file.value.None? {
          ChildrenStop(cs, i);
          return Err(IdentityRead);
        }
        items := items + [Item(cs[i].name, cs[i].file.value.value)];
      }
    }
    assert cs[..|cs|] == cs;
    return Ok(items);
  }

  /** The first failing entry decides. */
  lemma {:induction false} ChildrenStop(cs: seq<Child>, i: nat)
    requires i < |cs| && ChildItems(cs[..i + 1]).Err?
    ensures ChildItems(cs) == ChildItems(cs[..i + 1])
  {
    if i == |cs| - 1 {
      assert cs[..i + 1] == cs;
    } else {
      assert cs[..|cs| - 1][..i + 1] == cs[..i + 1];
      ChildrenStop(cs[..|cs| - 1], i);
    }
  }

  method ReadInventory(fs: seq<Found>) returns (r: Result<seq<Item>, Error>)
    ensures r == Inventory(fs)
  {
    var items: seq<Item> := [];
    for i := 0 to |fs|
      invariant Inventory(fs[..i]) == Ok(items)
    {
      assert fs[..i + 1][..i] == fs[..i];
      var found := PathItems(fs[i]);
      if fs[i].Directory? {
        found := ReadDirectory(fs[i].children);
      }
      if found.Err? {
        PathsStop(fs, i);
        return Err(found.error);
      }
      items := items + found.value;
    }
    assert fs[..|fs|] == fs;
    return Ok(items);
  }

  lemma {:induction false} PathsStop(fs: seq<Found>, i: nat)
    requires i < |fs| && Inventory(fs[..i + 1]).Err?
    ensures Inventory(fs) == Inventory(fs[..i + 1])
  {
    if i == |fs| - 1 {
      assert fs[..i + 1] == fs;
    } else {
      assert fs[..|fs| - 1][..i + 1] == fs[..i + 1];
      PathsStop(fs[..|fs| - 1], i);
    }
  }

  /* ---- The order ---- */

  predicate TextLeq(a: Text, b: Text) {
    a == [] || (b != [] && (a[0] < b[0] || (a[0] == b[0] && TextLeq(a[1..], b[1..]))))
  }

  lemma {:induction false} TextTotal(a: Text, b: Text)
    ensures TextLeq(a, b) || TextLeq(b, a)
    ensures TextLeq(a, b) && TextLeq(b, a) ==> a == b
  {
    if a != [] && b != [] {
      TextTotal(a[1..], b[1..]);
      assert a == [a[0]] + a[1..] && b == [b[0]] + b[1..];
    }
  }

  lemma {:induction false} TextTransitive(a: Text, b: Text, c: Text)
    requires TextLeq(a, b) && TextLeq(b, c)
    ensures TextLeq(a, c)
  {
    if a != [] && a[0] == b[0] == c[0] {
      TextTransitive(a[1..], b[1..], c[1..]);
    }
  }

  /** Tuples compare by name, then by identity. */
  predicate Leq(x: Item, y: Item) {
    if x.name == y.name then TextLeq(x.identity, y.identity) else TextLeq(x.name, y.name)
  }

  lemma LeqTotal(x: Item, y: Item)
    ensures Leq(x, y) || Leq(y, x)
    ensures Leq(x, y) && Leq(y, x) ==> x == y
  {
    TextTotal(x.name, y.name);
    TextTotal(x.identity, y.identity);
  }

  lemma LeqTransitive(x: Item, y: Item, z: Item)
    requires Leq(x, y) && Leq(y, z)
    ensures Leq(x, z)
  {
    TextTotal(x.name, y.name);
    TextTotal(y.name, z.name);
    TextTotal(x.name, z.name);
    if x.name == y.name == z.name {
      TextTransitive(x.identity, y.identity, z.identity);
    } else if x.name != y.name && y.name != z.name {
      TextTransitive(x.name, y.name, z.name);
    }
  }

  ghost predicate Below(s: seq<Item>, x: Item) {
    forall y :: y in s ==> Leq(y, x)
  }

  ghost predicate Ordered(s: seq<Item>) {
    s == [] || (Ordered(s[..|s| - 1]) && Below(s[..|s| - 1], s[|s| - 1]))
  }

  function Insert(s: seq<Item>, x: Item): seq<Item> {
    if s == [] || Leq(s[|s| - 1], x) then s + [x] else Insert(s[..|s| - 1], x) + [s[|s| - 1]]
  }

  function Sorted(s: seq<Item>): seq<Item> {
    if s == [] then [] else Insert(Sorted(s[..|s| - 1]), s[|s| - 1])
  }

  lemma {:induction false} InsertKeeps(s: seq<Item>, x: Item)
    ensures multiset(Insert(s, x)) == multiset(s) + multiset{x}
  {
    if s != [] && !Leq(s[|s| - 1], x) {
      InsertKeeps(s[..|s| - 1], x);
      assert s == s[..|s| - 1] + [s[|s| - 1]];
    }
  }

  lemma {:induction false} SortedKeeps(s: seq<Item>)
    ensures multiset(Sorted(s)) == multiset(s)
  {
    if s != [] {
      SortedKeeps(s[..|s| - 1]);
      InsertKeeps(Sorted(s[..|s| - 1]), s[|s| - 1]);
      assert s == s[..|s| - 1] + [s[|s| - 1]];
    }
  }

  lemma {:induction false} InsertOrdered(s: seq<Item>, x: Item)
    requires Ordered(s)
    ensures Ordered(Insert(s, x))
  {
    var r := Insert(s, x);
    if s == [] {
      assert r == [x];
    } else {
      var front, last := s[..|s| - 1], s[|s| - 1];
      assert r[..|r| - 1] == if Leq(last, x) then s else Insert(front, x);
      if Leq(last, x) {
        forall y | y in s ensures Leq(y, x) {
          if y in front {
            LeqTransitive(y, last, x);
          }
        }
      } else {
        InsertOrdered(front, x);
        InsertKeeps(front, x);
        LeqTotal(last, x);
        forall y | y in Insert(front, x) ensures Leq(y, last) {
          assert y in multiset(Insert(front, x));
        }
      }
    }
  }

  lemma {:induction false} SortedOrdered(s: seq<Item>)
    ensures Ordered(Sorted(s))
  {
    if s != [] {
      SortedOrdered(s[..|s| - 1]);
      InsertOrdered(Sorted(s[..|s| - 1]), s[|s| - 1]);
    }
  }

  /** Two ordered lists of the same items are the same list. */
  lemma {:induction false} OrderedUnique(a: seq<Item>, b: seq<Item>)
    requires Ordered(a) && Ordered(b) && multiset(a) == multiset(b)
    ensures a == b
  {
    SameLength(a, b);
    if a != [] {
      var x, y := a[|a| - 1], b[|b| - 1];
      LastAbove(a, y, b);
      LastAbove(b, x, a);
      LeqTotal(x, y);
      DropLast(a);
      DropLast(b);
      OrderedUnique(a[..|a| - 1], b[..|b| - 1]);
    }
  }

  lemma SameLength<T>(a: seq<T>, b: seq<T>)
    requires multiset(a) == multiset(b)
    ensures |a| == |b|
  {
    assert |multiset(a)| == |a| && |multiset(b)| == |b|;
  }

  lemma DropLast<T>(a: seq<T>)
    requires a != []
    ensures multiset(a[..|a| - 1]) == multiset(a) - multiset{a[|a| - 1]}
  {
    assert a == a[..|a| - 1] + [a[|a| - 1]];
  }

  /** The last item of an ordered list is above every item of a rearrangement. */
  lemma LastAbove(a: seq<Item>, y: Item, b: seq<Item>)
    requires Ordered(a) && a != [] && y in b && multiset(a) == multiset(b)
    ensures Leq(y, a[|a| - 1])
  {
    assert y in multiset(b);
    assert y in a;
    LeqTotal(y, y);
    if y != a[|a| - 1] {
      assert a == a[..|a| - 1] + [a[|a| - 1]];
    }
  }

  /** Sorting forgets the order the items came in. */
  lemma SortedForgets(a: seq<Item>, b: seq<Item>)
    requires multiset(a) == multiset(b)
    ensures Sorted(a) == Sorted(b)
  {
    SortedKeeps(a);
    SortedKeeps(b);
    SortedOrdered(a);
    SortedOrdered(b);
    OrderedUnique(Sorted(a), Sorted(b));
  }

  /* ---- The order of the given paths does not matter ---- */

  ghost predicate AllRead(fs: seq<Found>) {
    forall f :: f in fs ==> PathItems(f).Ok?
  }

  lemma {:induction false} InventoryOk(fs: seq<Found>)
    ensures Inventory(fs).Ok? <==> AllRead(fs)
  {
    if fs != [] {
      var front, last := fs[..|fs| - 1], fs[|fs| - 1];
      InventoryOk(front);
      assert fs == front + [last];
      assert last in fs;
    }
  }

  lemma InventorySnoc(a: seq<Found>, f: Found)
    requires Inventory(a).Ok? && PathItems(f).Ok?
    ensures Inventory(a + [f]) == Ok(Inventory(a).value + PathItems(f).value)
  {
    assert (a + [f])[..|a|] == a;
  }

  lemma {:induction false} InventoryJoin(a: seq<Found>, b: seq<Found>)
    requires AllRead(a) && AllRead(b)
    ensures Inventory(a).Ok? && Inventory(b).Ok? && Inventory(a + b) == Ok(Inventory(a).value + Inventory(b).value)
    decreases |b|
  {
    InventoryOk(a);
    if b == [] {
      assert a + b == a;
      assert Inventory(a).value + [] == Inventory(a).value;
    } else {
      var front, f := b[..|b| - 1], b[|b| - 1];
      InventoryJoin(a, front);
      InventorySnoc(a + front, f);
      InventorySnoc(front, f);
      assert a + b == (a + front) + [f] && b == front + [f];
      JoinAssociates(Inventory(a).value, Inventory(front).value, PathItems(f).value);
    }
  }

  lemma JoinAssociates(x: seq<Item>, y: seq<Item>, z: seq<Item>)
    ensures (x + y) + z == x + (y + z)
  {
  }

  /** Take one path out of the list, and its items leave the inventory. */
  lemma TakeOut(b: seq<Found>, i: nat)
    requires AllRead(b) && i < |b|
    ensures var rest := b[..i] + b[i + 1..];
            && multiset(rest) == multiset(b) - multiset{b[i]} && AllRead(rest)
            && Inventory(b).Ok? && Inventory(rest).Ok?
            && multiset(Inventory(b).value) == multiset(Inventory(rest).value) + multiset(PathItems(b[i]).value)
  {
    var before, after, x := b[..i], b[i + 1..], [b[i]];
    assert b == before + (x + after);
    InventoryJoin(before, x + after);
    InventoryJoin(x, after);
    InventoryJoin(before, after);
    assert x[..0] == [];
    assert Inventory(x).value == PathItems(b[i]).value;
  }

  lemma {:induction false} InventoryForgets(a: seq<Found>, b: seq<Found>)
    requires AllRead(a) && multiset(a) == multiset(b)
    ensures AllRead(b) && Inventory(a).Ok? && Inventory(b).Ok?
    ensures multiset(Inventory(a).value) == multiset(Inventory(b).value)
    decreases |a|, 1
  {
    SameMembers(a, b);
    InventoryOk(a);
    InventoryOk(b);
    SameLength(a, b);
    if a != [] {
      assert a[0] in b;
      var i :| 0 <= i < |b| && b[i] == a[0];
      ForgetStep(a, b, i);
    }
  }

  lemma ForgetStep(a: seq<Found>, b: seq<Found>, i: nat)
    requires AllRead(a) && AllRead(b) && Inventory(a).Ok? && Inventory(b).Ok? && multiset(a) == multiset(b)
    requires a != [] && i < |b| && b[i] == a[0]
    ensures multiset(Inventory(a).value) == multiset(Inventory(b).value)
    decreases |a|, 0
  {
    TakeOut(a, 0);
    TakeOut(b, i);
    InventoryForgets(a[..0] + a[1..], b[..i] + b[i + 1..]);
  }

  lemma SameMembers(a: seq<Found>, b: seq<Found>)
    requires multiset(a) == multiset(b)
    ensures forall f :: f in a <==> f in b
  {
    forall f ensures f in a <==> f in b {
      assert f in a <==> f in multiset(a);
      assert f in b <==> f in multiset(b);
    }
  }

  /* ---- The encoding ---- */

  function Power(k: nat): nat {
    if k == 0 then 1 else 256 * Power(k - 1)
  }

  /** `to_bytes(k, "big")`. */
  function BigEndian(n: nat, k: nat): Text {
    if k == 0 then [] else BigEndian(n / 256, k - 1) + [n % 256]
  }

  function FromBigEndian(t: Text): nat {
    if t == [] then 0 else 256 * FromBigEndian(t[..|t| - 1]) + t[|t| - 1]
  }

  lemma {:induction false} BigEndianRoundTrip(n: nat, k: nat)
    requires n < Power(k)
    ensures |BigEndian(n, k)| == k && FromBigEndian(BigEndian(n, k)) == n
  {
    if k > 0 {
      assert n / 256 < Power(k - 1);
      BigEndianRoundTrip(n / 256, k - 1);
      assert BigEndian(n, k)[..k - 1] == BigEndian(n / 256, k - 1);
    }
  }

  /** Lengths that fit in eight bytes. */
  const LENGTH_LIMIT: nat := 0x1_0000_0000_0000_0000

  lemma LimitIsPower()
    ensures Power(8) == LENGTH_LIMIT
  {
    assert Power(4) == 256 * Power(3) == 256 * 256 * Power(2) == 0x1_0000_0000;
    assert Power(8) == 256 * Power(7) == 256 * 256 * Power(6) == 0x100_0000 * Power(5) == 0x1_0000_0000 * Power(4);
  }

  predicate Encodable(items: seq<Item>) {
    forall x :: x in items ==> |x.name| < LENGTH_LIMIT && |x.identity| < LENGTH_LIMIT
  }

  function EncodeText(t: Text): Text {
    BigEndian(|t|, 8) + t
  }

  function EncodeItem(x: Item): Text {
    EncodeText(x.name) + EncodeText(x.identity)
  }

  /** The byte stream fed to the hash. */
  function Encode(items: seq<Item>): Text {
    if items == [] then [] else EncodeItem(items[0]) + Encode(items[1..])
  }

  /** Read one length-delimited text off the front. */
  function DecodeText(t: Text): Option<(Text, Text)> {
    if |t| < 8 then None
    else
      var n := FromBigEndian(t[..8]);
      if n > |t| - 8 then None else Some((t[8..8 + n], t[8 + n..]))
  }

  function Decode(t: Text): Option<seq<Item>>
    decreases |t|
  {
    if t == [] then Some([])
    else
      match DecodeText(t)
      case None => None
      case Some((name, rest)) =>
        match DecodeText(rest)
        case None => None
        case Some((identity, tail)) =>
          var items := Decode(tail);
          if items.None? then None else Some([Item(name, identity)] + items.value)
  }

  lemma DecodeTextInverts(t: Text, rest: Text)
    requires |t| < LENGTH_LIMIT
    ensures DecodeText(EncodeText(t) + rest) == Some((t, rest))
  {
    LimitIsPower();
    BigEndianRoundTrip(|t|, 8);
    var all := EncodeText(t) + rest;
    assert all[..8] == BigEndian(|t|, 8);
    assert all[8..8 + |t|] == t && all[8 + |t|..] == rest;
  }

  lemma {:induction false} BigEndianLength(n: nat, k: nat)
    ensures |BigEndian(n, k)| == k
  {
    if k > 0 {
      BigEndianLength(n / 256, k - 1);
    }
  }

  lemma DecodeStep(x: Item, rest: Text)
    requires |x.name| < LENGTH_LIMIT && |x.identity| < LENGTH_LIMIT && Decode(rest).Some?
    ensures Decode(EncodeText(x.name) + (EncodeText(x.identity) + rest)) == Some([x] + Decode(rest).value)
  {
    DecodeTextInverts(x.name, EncodeText(x.identity) + rest);
    DecodeTextInverts(x.identity, rest);
    BigEndianLength(|x.name|, 8);
  }

  /** The stream determines the inventory. */
  lemma {:induction false} DecodeInverts(items: seq<Item>)
    requires Encodable(items)
    ensures Decode(Encode(items)) == Some(items)
  {
    if items != [] {
      var x, rest := items[0], Encode(items[1..]);
      DecodeInverts(items[1..]);
      DecodeStep(x, rest);
      assert Encode(items) == EncodeText(x.name) + (EncodeText(x.identity) + rest);
      assert items == [x] + items[1..];
    }
  }

  /** Feed the digest item by item. */
  method Feed(items: seq<Item>) returns (r: Result<Text, Error>)
    ensures r == if Encodable(items) then Ok(Encode(items)) else Err(LengthOverflow)
  {
    var stream: Text := [];
    for i := 0 to |items|
      invariant Encodable(items[..i])
      invariant stream + Encode(items[i..]) == Encode(items)
    {
      var x := items[i];
      if |x.name| >= LENGTH_LIMIT || |x.identity| >= LENGTH_LIMIT {
        assert x in items;
        return Err(LengthOverflow);
      }
      assert items[i..][0] == x && items[i..][1..] == items[i + 1..];
      assert items[..i + 1] == items[..i] + [x];
      StreamStep(stream, x, Encode(items[i + 1..]));
      stream := stream + BigEndian(|x.name|, 8);
      stream := stream + x.name;
      stream := stream + BigEndian(|x.identity|, 8);
      stream := stream + x.identity;
    }
    assert items[..|items|] == items && items[|items|..] == [];
    assert stream + [] == stream;
    return Ok(stream);
  }

  lemma StreamStep(stream: Text, x: Item, rest: Text)
    ensures stream + BigEndian(|x.name|, 8) + x.name + BigEndian(|x.identity|, 8) + x.identity + rest
         == stream + (EncodeItem(x) + rest)
  {
  }

  /* ---- The identity ---- */

  /** The preimage of the tree identity; the identity is its hash. */
  function Preimage(fs: seq<Found>): Result<Text, Error> {
    var items :- Inventory(fs);
    if Encodable(Sorted(items)) then Ok(Encode(Sorted(items))) else Err(LengthOverflow)
  }

  method ContentIdentity(fs: seq<Found>) returns (r: Result<Text, Error>)
    ensures r == Preimage(fs)
  {
    var items := ReadInventory(fs);
    if items.Err? {
      return Err(items.error);
    }
    r := Feed(Sorted(items.value));
  }

  /** Uniquely decodable: equal streams come from equal sorted inventories. */
  lemma PreimageDetermines(a: seq<Found>, b: seq<Found>)
    requires Preimage(a).Ok? && Preimage(a) == Preimage(b)
    ensures Sorted(Inventory(a).value) == Sorted(Inventory(b).value)
    ensures multiset(Inventory(a).value) == multiset(Inventory(b).value)
    ensures Decode(Preimage(a).value) == Some(Sorted(Inventory(a).value))
  {
    DecodeInverts(Sorted(Inventory(a).value));
    DecodeInverts(Sorted(Inventory(b).value));
    SortedKeeps(Inventory(a).value);
    SortedKeeps(Inventory(b).value);
  }

  /** Giving the same paths in another order yields the same identity, or fails as well. */
  lemma OrderIndependent(a: seq<Found>, b: seq<Found>)
    requires multiset(a) == multiset(b)
    ensures Preimage(a).Ok? <==> Preimage(b).Ok?
    ensures Preimage(a).Ok? ==> Preimage(a) == Preimage(b)
  {
    InventoryOk(a);
    InventoryOk(b);
    SameMembers(a, b);
    if AllRead(a) {
      InventoryForgets(a, b);
      SortedForgets(Inventory(a).value, Inventory(b).value);
    }
  }
}
