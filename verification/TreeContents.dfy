/** What the tree identity covers: which items a tree gives, how often, and when two trees have one identity. */
module TreeContents {
  import opened Records
  import opened TreeIdentity

  /* ---- The items a tree gives ---- */

  /** The text in ASCII. */
  ghost function Ascii(s: string): seq<int> {
    seq(|s|, i requires 0 <= i < |s| => s[i] as int)
  }

  lemma MissingText()
    ensures MISSING == Ascii("MISSING")
  {
  }

  /** How many places below one configured path give the item: a missing path its name with the word MISSING, a file its
      name and identity, a directory every file in it. */
  ghost function Times(f: Found, x: Item): nat {
    match f
    case Outside => 0
    case Missing(name) => if x.name == name && x.identity == Ascii("MISSING") then 1 else 0
    case File(name, identity) => if x.name == name && identity == Some(x.identity) then 1 else 0
    case Directory(children) => FilesIn(children, x)
  }

  ghost function FilesIn(cs: seq<Child>, x: Item): nat {
    if cs == [] then 0
    else FilesIn(cs[..|cs| - 1], x) + if IsFile(cs[|cs| - 1], x) then 1 else 0
  }

  ghost predicate IsFile(c: Child, x: Item) {
    c.name == x.name && c.file == Some(Some(x.identity))
  }

  ghost function Total(fs: seq<Found>, x: Item): nat {
    if fs == [] then 0 else Total(fs[..|fs| - 1], x) + Times(fs[|fs| - 1], x)
  }

  /** Everything configured lies under the root and can be read. */
  ghost predicate Readable(f: Found) {
    match f
    case Outside => false
    case Missing(_) => true
    case File(_, identity) => identity.Some?
    case Directory(children) =>
      forall j :: 0 <= j < |children| ==>
        !children[j].escapes && (children[j].file.Some? ==> children[j].file.value.Some?)
  }

  lemma {:induction false} ChildrenGive(cs: seq<Child>, x: Item)
    ensures ChildItems(cs).Ok? <==> Readable(Directory(cs))
    ensures ChildItems(cs).Ok? ==> multiset(ChildItems(cs).value)[x] == FilesIn(cs, x)
  {
    if cs != [] {
      var front, c := cs[..|cs| - 1], cs[|cs| - 1];
      ChildrenGive(front, x);
      assert forall j :: 0 <= j < |front| ==> front[j] == cs[j];
    }
  }

  lemma PathGives(f: Found, x: Item)
    ensures PathItems(f).Ok? <==> Readable(f)
    ensures PathItems(f).Ok? ==> multiset(PathItems(f).value)[x] == Times(f, x)
  {
    MissingText();
    if f.Directory? {
      ChildrenGive(f.children, x);
    }
  }

  /** The inventory holds every item as often as the tree gives it, and nothing else. */
  lemma {:induction false} InventoryGives(fs: seq<Found>, x: Item)
    ensures Inventory(fs).Ok? <==> forall i :: 0 <= i < |fs| ==> Readable(fs[i])
    ensures Inventory(fs).Ok? ==> multiset(Inventory(fs).value)[x] == Total(fs, x)
  {
    if fs != [] {
      var front, f := fs[..|fs| - 1], fs[|fs| - 1];
      InventoryGives(front, x);
      PathGives(f, x);
      assert forall i :: 0 <= i < |front| ==> front[i] == fs[i];
    }
  }

  lemma {:induction false} FilesPositive(cs: seq<Child>, x: Item)
    ensures FilesIn(cs, x) > 0 <==> exists j :: 0 <= j < |cs| && IsFile(cs[j], x)
  {
    if cs != [] {
      var front := cs[..|cs| - 1];
      FilesPositive(front, x);
      if j :| 0 <= j < |cs| && IsFile(cs[j], x) {
        assert j < |front| ==> IsFile(front[j], x);
      }
    }
  }

  lemma {:induction false} TotalPositive(fs: seq<Found>, x: Item)
    ensures Total(fs, x) > 0 <==> exists i :: 0 <= i < |fs| && Times(fs[i], x) > 0
  {
    if fs != [] {
      var front := fs[..|fs| - 1];
      TotalPositive(front, x);
      if i :| 0 <= i < |fs| && Times(fs[i], x) > 0 {
        assert i < |front| ==> Times(front[i], x) > 0;
      }
    }
  }

  /** A readable file given as a path, a missing path, and every file below a given directory is in the inventory. */
  lemma EveryFileListed(fs: seq<Found>, i: nat)
    requires Inventory(fs).Ok? && i < |fs|
    ensures fs[i].File? ==> fs[i].identity.Some? && Item(fs[i].name, fs[i].identity.value) in Inventory(fs).value
    ensures fs[i].Missing? ==> Item(fs[i].name, MISSING) in Inventory(fs).value
    ensures fs[i].Directory? ==>
              forall j :: 0 <= j < |fs[i].children| && fs[i].children[j].file.Some? ==>
                && fs[i].children[j].file.value.Some?
                && Item(fs[i].children[j].name, fs[i].children[j].file.value.value) in Inventory(fs).value
  {
    MissingText();
    InventoryGives(fs, Item([], []));
    assert Readable(fs[i]);
    match fs[i]
    case File(name, identity) => Listed(fs, i, Item(name, identity.value));
    case Missing(name) => Listed(fs, i, Item(name, MISSING));
    case Directory(cs) =>
      forall j | 0 <= j < |cs| && cs[j].file.Some?
        ensures Item(cs[j].name, cs[j].file.value.value) in Inventory(fs).value
      {
        var x := Item(cs[j].name, cs[j].file.value.value);
        assert IsFile(cs[j], x);
        FilesPositive(cs, x);
        Listed(fs, i, x);
      }
    case Outside => assert false;
  }

  lemma Listed(fs: seq<Found>, i: nat, x: Item)
    requires Inventory(fs).Ok? && i < |fs| && Times(fs[i], x) > 0
    ensures x in Inventory(fs).value
  {
    InventoryGives(fs, x);
    TotalPositive(fs, x);
    assert x in multiset(Inventory(fs).value);
  }

  /** And nothing else is: every line stands for a missing path, a file given as a path, or a file below a directory. */
  lemma NothingElseListed(fs: seq<Found>, x: Item) returns (i: nat)
    requires Inventory(fs).Ok? && x in Inventory(fs).value
    ensures i < |fs|
    ensures || (fs[i].Missing? && x == Item(fs[i].name, MISSING))
            || (fs[i].File? && fs[i].name == x.name && fs[i].identity == Some(x.identity))
            || (fs[i].Directory? && exists j :: 0 <= j < |fs[i].children| && IsFile(fs[i].children[j], x))
  {
    MissingText();
    InventoryGives(fs, x);
    assert x in multiset(Inventory(fs).value);
    TotalPositive(fs, x);
    i :| 0 <= i < |fs| && Times(fs[i], x) > 0;
    if fs[i].Directory? {
      FilesPositive(fs[i].children, x);
    }
  }

  /** The first path that fails decides, and in a directory its first failing entry. */
  lemma FirstFailure(fs: seq<Found>, i: nat)
    requires i < |fs| && !Readable(fs[i]) && forall k :: 0 <= k < i ==> Readable(fs[k])
    ensures fs[i].Outside? ==> Preimage(fs) == Err(PathEscape)
    ensures fs[i].File? ==> Preimage(fs) == Err(IdentityRead)
    ensures fs[i].Directory? ==>
              forall j :: 0 <= j < |fs[i].children| && Readable(Directory(fs[i].children[..j]))
                          && !Readable(Directory(fs[i].children[..j + 1])) ==>
                Preimage(fs) == Err(if fs[i].children[j].escapes then SymlinkEscape else IdentityRead)
  {
    var x := Item([], []);
    InventoryGives(fs[..i], x);
    PathGives(fs[i], x);
    assert fs[..i + 1][..i] == fs[..i];
    PathsStop(fs, i);
    if fs[i].Directory? {
      var cs := fs[i].children;
      forall j | 0 <= j < |cs| && Readable(Directory(cs[..j])) && !Readable(Directory(cs[..j + 1]))
        ensures ChildItems(cs) == Err(if cs[j].escapes then SymlinkEscape else IdentityRead)
      {
        ChildrenGive(cs[..j], x);
        ChildrenGive(cs[..j + 1], x);
        assert cs[..j + 1][..j] == cs[..j];
        ChildrenStop(cs, j);
      }
    }
  }

  /* ---- When two trees have one identity ---- */

  /** The stream exists exactly for a readable tree whose names and identities have lengths of at most eight bytes. */
  lemma PreimageIff(fs: seq<Found>)
    ensures Preimage(fs).Ok? <==>
            && (forall i :: 0 <= i < |fs| ==> Readable(fs[i]))
            && (forall x :: Total(fs, x) > 0 ==> |x.name| < LENGTH_LIMIT && |x.identity| < LENGTH_LIMIT)
  {
    InventoryGives(fs, Item([], []));
    if Inventory(fs).Ok? {
      var items := Inventory(fs).value;
      SortedKeeps(items);
      forall x ensures Total(fs, x) > 0 <==> x in Sorted(items) {
        InventoryGives(fs, x);
        assert x in multiset(Sorted(items)) <==> x in multiset(items);
      }
    }
  }

  lemma InventoryTotals(a: seq<Found>, b: seq<Found>)
    requires Inventory(a).Ok? && Inventory(b).Ok?
    ensures multiset(Inventory(a).value) == multiset(Inventory(b).value) <==> forall x :: Total(a, x) == Total(b, x)
  {
    var s, t := multiset(Inventory(a).value), multiset(Inventory(b).value);
    forall x ensures s[x] == t[x] <==> Total(a, x) == Total(b, x) {
      InventoryGives(a, x);
      InventoryGives(b, x);
    }
    if s != t {
      var x :| s[x] != t[x];
      assert Total(a, x) != Total(b, x);
    }
  }

  /** Two trees that can be identified have one stream exactly when they give every item equally often. */
  lemma SameIdentityIff(a: seq<Found>, b: seq<Found>)
    requires Preimage(a).Ok? && Preimage(b).Ok?
    ensures Preimage(a) == Preimage(b) <==> forall x :: Total(a, x) == Total(b, x)
  {
    InventoryTotals(a, b);
    if Preimage(a) == Preimage(b) {
      PreimageDetermines(a, b);
    } else if multiset(Inventory(a).value) == multiset(Inventory(b).value) {
      SortedForgets(Inventory(a).value, Inventory(b).value);
    }
  }

  lemma {:induction false} TotalUpdate(fs: seq<Found>, i: nat, f: Found, x: Item)
    requires i < |fs|
    ensures Total(fs[i := f], x) + Times(fs[i], x) == Total(fs, x) + Times(f, x)
  {
    var front, last := fs[..|fs| - 1], fs[|fs| - 1];
    if i < |fs| - 1 {
      TotalUpdate(front, i, f, x);
      assert fs[i := f][..|fs| - 1] == front[i := f];
    } else {
      assert fs[i := f][..|fs| - 1] == front;
    }
  }

  /** A path whose items change changes the identity. */
  lemma PathChanged(fs: seq<Found>, i: nat, f: Found, x: Item)
    requires i < |fs| && Preimage(fs).Ok? && Times(f, x) != Times(fs[i], x)
    ensures Preimage(fs[i := f]) != Preimage(fs)
  {
    TotalUpdate(fs, i, f, x);
    if Preimage(fs[i := f]) == Preimage(fs) {
      SameIdentityIff(fs[i := f], fs);
    }
  }

  /** Another content of one file given as a path is another stream; so is the file's disappearance, unless its identity
      were the word MISSING, and its moving to another name. */
  lemma FileChanged(fs: seq<Found>, i: nat, f: Found)
    requires i < |fs| && Preimage(fs).Ok? && fs[i].File?
    requires || (f.File? && (f.name != fs[i].name || f.identity != fs[i].identity))
             || (f.Missing? && (f.name != fs[i].name || fs[i].identity != Some(MISSING)))
    ensures Preimage(fs[i := f]) != Preimage(fs)
  {
    MissingText();
    InventoryGives(fs, Item([], []));
    assert Readable(fs[i]);
    PathChanged(fs, i, f, Item(fs[i].name, fs[i].identity.value));
  }

  lemma {:induction false} FilesUpdate(cs: seq<Child>, j: nat, c: Child, x: Item)
    requires j < |cs|
    ensures FilesIn(cs[j := c], x) + (if IsFile(cs[j], x) then 1 else 0)
         == FilesIn(cs, x) + if IsFile(c, x) then 1 else 0
  {
    var front := cs[..|cs| - 1];
    if j < |cs| - 1 {
      FilesUpdate(front, j, c, x);
      assert cs[j := c][..|cs| - 1] == front[j := c];
    } else {
      assert cs[j := c][..|cs| - 1] == front;
    }
  }

  /** Another content of one file below a directory is another stream. */
  lemma ChildChanged(fs: seq<Found>, i: nat, j: nat, identity: Option<Text>)
    requires i < |fs| && Preimage(fs).Ok? && fs[i].Directory? && j < |fs[i].children|
    requires fs[i].children[j].file.Some? && fs[i].children[j].file.value != identity
    ensures var cs := fs[i].children;
            Preimage(fs[i := Directory(cs[j := cs[j].(file := Some(identity))])]) != Preimage(fs)
  {
    var cs := fs[i].children;
    var c := cs[j].(file := Some(identity));
    InventoryGives(fs, Item([], []));
    assert Readable(fs[i]);
    var x := Item(cs[j].name, cs[j].file.value.value);
    FilesUpdate(cs, j, c, x);
    PathChanged(fs, i, Directory(cs[j := c]), x);
  }

  /* ---- The order and the layout ---- */

  /** Byte order is lexicographic: a prefix comes first, otherwise the first difference decides. */
  lemma {:induction false} TextLeqIff(a: Text, b: Text)
    ensures TextLeq(a, b) <==>
            || (|a| <= |b| && a == b[..|a|])
            || exists k :: 0 <= k < |a| && k < |b| && a[..k] == b[..k] && a[k] < b[k]
  {
    if a != [] && b != [] && a[0] == b[0] {
      var s, t := a[1..], b[1..];
      TextLeqIff(s, t);
      assert a == [a[0]] + s && b == [b[0]] + t;
      if |s| <= |t| && s == t[..|s|] {
        assert b[..|a|] == [b[0]] + t[..|s|];
      }
      if |a| <= |b| && a == b[..|a|] {
        assert t[..|s|] == b[..|a|][1..] == s;
      }
      if k :| 0 <= k < |s| && k < |t| && s[..k] == t[..k] && s[k] < t[k] {
        assert a[..k + 1] == [a[0]] + s[..k] && b[..k + 1] == [b[0]] + t[..k];
        assert a[k + 1] < b[k + 1];
      }
      if k :| 0 <= k < |a| && k < |b| && a[..k] == b[..k] && a[k] < b[k] {
        assert k > 0 && s[..k - 1] == a[..k][1..] == b[..k][1..] == t[..k - 1];
        assert s[k - 1] < t[k - 1];
      }
    } else if a != [] && b != [] && a[0] < b[0] {
      assert a[..0] == b[..0];
    }
  }

  /** The most significant byte comes first. */
  lemma {:induction false} BigEndianDigit(n: nat, k: nat, i: nat)
    requires i < k
    ensures |BigEndian(n, k)| == k && Power(k - 1 - i) > 0 && BigEndian(n, k)[i] == n / Power(k - 1 - i) % 256
  {
    BigEndianLength(n, k);
    BigEndianLength(n / 256, k - 1);
    PowerPositive(k - 1 - i);
    if i < k - 1 {
      BigEndianDigit(n / 256, k - 1, i);
      PowerPositive(k - 2 - i);
      DivideTwice(n, Power(k - 2 - i));
    }
  }

  lemma {:induction false} PowerPositive(k: nat)
    ensures Power(k) > 0
  {
    if k > 0 {
      PowerPositive(k - 1);
    }
  }

  lemma DivideTwice(n: nat, p: nat)
    requires p > 0
    ensures n / 256 / p == n / (256 * p)
  {
    var q, r := n / 256 / p, n / 256 % p;
    var m := n % 256;
    assert n == 256 * (p * q + r) + m == (256 * p) * q + (256 * r + m);
    assert 0 <= 256 * r + m < 256 * p;
    QuotientIs(n, 256 * p, q, 256 * r + m);
  }

  lemma QuotientIs(n: nat, d: nat, q: nat, r: nat)
    requires d > 0 && n == d * q + r && r < d
    ensures n / d == q
  {
    var k := n / d - q;
    assert n == d * (n / d) + n % d;
    assert d * k == r - n % d;
    assert (k > 0 ==> d * k >= d) && (k < 0 ==> d * k <= 0 - d);
  }

  /** Each line is the name and the identity, each behind its length in eight bytes. */
  lemma LineLayout(x: Item)
    ensures var t, n := EncodeItem(x), |x.name|;
            && |t| == 16 + n + |x.identity|
            && t[..8] == BigEndian(n, 8) && t[8..8 + n] == x.name
            && t[8 + n..16 + n] == BigEndian(|x.identity|, 8) && t[16 + n..] == x.identity
  {
    BigEndianLength(|x.name|, 8);
    BigEndianLength(|x.identity|, 8);
  }

  lemma {:induction false} OrderedPairs(items: seq<Item>, i: nat, j: nat)
    requires Ordered(items) && i < j < |items|
    ensures if items[i].name == items[j].name then TextLeq(items[i].identity, items[j].identity)
            else TextLeq(items[i].name, items[j].name)
  {
    if j < |items| - 1 {
      OrderedPairs(items[..|items| - 1], i, j);
    } else {
      assert items[i] in items[..|items| - 1];
    }
  }

  /** The stream is the lines of the inventory one after another, by name and then by identity. */
  lemma LinesAscend(fs: seq<Found>) returns (items: seq<Item>)
    requires Preimage(fs).Ok?
    ensures Preimage(fs).value == Encode(items) && multiset(items) == multiset(Inventory(fs).value)
    ensures forall i, j :: 0 <= i < j < |items| ==>
              if items[i].name == items[j].name then TextLeq(items[i].identity, items[j].identity)
              else TextLeq(items[i].name, items[j].name)
  {
    items := Sorted(Inventory(fs).value);
    SortedKeeps(Inventory(fs).value);
    SortedOrdered(Inventory(fs).value);
    forall i, j | 0 <= i < j < |items|
      ensures if items[i].name == items[j].name then TextLeq(items[i].identity, items[j].identity)
              else TextLeq(items[i].name, items[j].name)
    {
      OrderedPairs(items, i, j);
    }
  }

  /** A stream of two lists of lines is the one after the other. */
  lemma {:induction false} StreamJoins(a: seq<Item>, b: seq<Item>)
    ensures Encode(a + b) == Encode(a) + Encode(b)
  {
    if a == [] {
      assert a + b == b;
    } else {
      assert (a + b)[1..] == a[1..] + b;
      StreamJoins(a[1..], b);
    }
  }
}
