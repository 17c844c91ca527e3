/** A text form of JSON values that can be read back: record-derived identities can tell all field sets apart. */
module JsonText {
  import opened Records
  import opened Migration

  /** Reading one character of a text: push a literal, or build the value on top of the stack from those above it. */
  function Apply(stack: seq<Json>, c: char): seq<Json> {
    var n := |stack|;
    match c
    case 'n' => stack + [Null]
    case 't' => stack + [Bool(true)]
    case 'f' => stack + [Bool(false)]
    case '0' => stack + [Num(0)]
    case 's' => stack + [Str("")]
    case 'a' => stack + [Arr([])]
    case 'o' => stack + [Obj(map[])]
    case '+' => if n >= 1 && stack[n - 1].Num? then stack[..n - 1] + [Num(stack[n - 1].n + 1)] else stack
    case '-' => if n >= 1 && stack[n - 1].Num? then stack[..n - 1] + [Num(stack[n - 1].n - 1)] else stack
    case 'r' => if n >= 1 && stack[n - 1].Str? then stack[..n - 1] + [Float(stack[n - 1].s)] else stack
    case 'c' =>
      if n >= 2 && stack[n - 2].Str? && stack[n - 1].Num? && IsCharacter(stack[n - 1].n)
      then stack[..n - 2] + [Str(stack[n - 2].s + [stack[n - 1].n as char])] else stack
    case ',' =>
      if n >= 2 && stack[n - 2].Arr?
      then stack[..n - 2] + [Arr(stack[n - 2].items + [stack[n - 1]])] else stack
    case ':' =>
      if n >= 3 && stack[n - 3].Obj? && stack[n - 2].Str?
      then stack[..n - 3] + [Obj(stack[n - 3].fields[stack[n - 2].s := stack[n - 1]])] else stack
    case _ => stack
  }

  predicate IsCharacter(n: int) {
    0 <= n < 0xD800 || 0xE000 <= n < 0x11_0000
  }

  function Run(text: string, stack: seq<Json>): seq<Json> {
    if text == "" then stack else Run(text[1..], Apply(stack, text[0]))
  }

  lemma {:induction false} RunAppend(a: string, b: string, stack: seq<Json>)
    ensures Run(a + b, stack) == Run(b, Run(a, stack))
  {
    if a == "" {
      assert a + b == b;
    } else {
      RunAppend(a[1..], b, Apply(stack, a[0]));
      assert (a + b)[1..] == a[1..] + b;
    }
  }

  /** The text pushes exactly this value, whatever lies below. */
  ghost predicate Writes(text: string, j: Json) {
    forall stack :: Run(text, stack) == stack + [j]
  }

  ghost predicate HasText(j: Json) {
    exists text :: Writes(text, j)
  }

  lemma RunOne(c: char, stack: seq<Json>)
    ensures Run([c], stack) == Apply(stack, c)
  {
    assert [c][1..] == "";
  }

  /** Extend a text by one character that reworks the top of the stack. */
  lemma Rework(text: string, j: Json, c: char, k: Json)
    requires Writes(text, j) && forall stack: seq<Json> :: Apply(stack + [j], c) == stack + [k]
    ensures Writes(text + [c], k)
  {
    forall stack ensures Run(text + [c], stack) == stack + [k] {
      RunAppend(text, [c], stack);
      RunOne(c, stack + [j]);
    }
  }

  lemma Literal(c: char, j: Json)
    requires forall stack: seq<Json> :: Apply(stack, c) == stack + [j]
    ensures Writes([c], j)
  {
    forall stack ensures Run([c], stack) == stack + [j] {
      RunOne(c, stack);
    }
  }

  /** Write one value, then another above it, then join the two. */
  lemma Join(text: string, j: Json, more: string, k: Json, c: char, joined: Json)
    requires Writes(text, j) && Writes(more, k)
    requires forall stack: seq<Json> :: Apply(stack + [j] + [k], c) == stack + [joined]
    ensures Writes(text + more + [c], joined)
  {
    forall stack ensures Run(text + more + [c], stack) == stack + [joined] {
      RunAppend(text + more, [c], stack);
      RunAppend(text, more, stack);
      assert Run(text + more, stack) == stack + [j] + [k];
      RunOne(c, stack + [j] + [k]);
    }
  }

  lemma Count(text: string, n: int)
    requires Writes(text, Num(n))
    ensures Writes(text + "+", Num(n + 1)) && Writes(text + "-", Num(n - 1))
  {
    forall stack: seq<Json>
      ensures Apply(stack + [Num(n)], '+') == stack + [Num(n + 1)]
      ensures Apply(stack + [Num(n)], '-') == stack + [Num(n - 1)]
    {
      assert (stack + [Num(n)])[..|stack|] == stack;
    }
    Rework(text, Num(n), '+', Num(n + 1));
    Rework(text, Num(n), '-', Num(n - 1));
  }

  lemma AppendCharacter(text: string, s: string, more: string, c: char)
    requires Writes(text, Str(s)) && Writes(more, Num(c as int))
    ensures Writes(text + more + "c", Str(s + [c]))
  {
    forall stack: seq<Json> ensures Apply(stack + [Str(s)] + [Num(c as int)], 'c') == stack + [Str(s + [c])] {
      assert (stack + [Str(s)] + [Num(c as int)])[..|stack|] == stack;
    }
    Join(text, Str(s), more, Num(c as int), 'c', Str(s + [c]));
  }

  lemma AppendItem(text: string, xs: seq<Json>, more: string, x: Json)
    requires Writes(text, Arr(xs)) && Writes(more, x)
    ensures Writes(text + more + ",", Arr(xs + [x]))
  {
    forall stack: seq<Json> ensures Apply(stack + [Arr(xs)] + [x], ',') == stack + [Arr(xs + [x])] {
      assert (stack + [Arr(xs)] + [x])[..|stack|] == stack;
    }
    Join(text, Arr(xs), more, x, ',', Arr(xs + [x]));
  }

  lemma AsFloat(text: string, t: string)
    requires Writes(text, Str(t))
    ensures Writes(text + "r", Float(t))
  {
    forall stack: seq<Json> ensures Apply(stack + [Str(t)], 'r') == stack + [Float(t)] {
      assert (stack + [Str(t)])[..|stack|] == stack;
    }
    Rework(text, Str(t), 'r', Float(t));
  }

  lemma {:induction false} NumberWritable(n: int)
    ensures HasText(Num(n))
    decreases if n < 0 then -n else n
  {
    if n == 0 {
      Literal('0', Num(0));
    } else {
      var m := if n > 0 then n - 1 else n + 1;
      NumberWritable(m);
      var text :| Writes(text, Num(m));
      Count(text, m);
    }
  }

  lemma {:induction false} StringWritable(s: string)
    ensures HasText(Str(s))
  {
    if s == "" {
      Literal('s', Str(""));
    } else {
      var front, c := s[..|s| - 1], s[|s| - 1];
      StringWritable(front);
      NumberWritable(c as int);
      var text :| Writes(text, Str(front));
      var more :| Writes(more, Num(c as int));
      AppendCharacter(text, front, more, c);
      assert front + [c] == s;
    }
  }

  lemma {:induction false} ItemsWritable(xs: seq<Json>, n: nat)
    requires n <= |xs| && forall i :: 0 <= i < n ==> HasText(xs[i])
    ensures HasText(Arr(xs[..n]))
  {
    if n == 0 {
      assert xs[..0] == [];
      Literal('a', Arr([]));
    } else {
      ItemsWritable(xs, n - 1);
      var text :| Writes(text, Arr(xs[..n - 1]));
      var more :| Writes(more, xs[n - 1]);
      AppendItem(text, xs[..n - 1], more, xs[n - 1]);
      assert xs[..n] == xs[..n - 1] + [xs[n - 1]];
    }
  }

  function Part(m: Fields, keys: set<string>): Fields
    requires keys <= m.Keys
  {
    map k | k in keys :: m[k]
  }

  lemma {:induction false} FieldsWritable(m: Fields, keys: set<string>)
    requires keys <= m.Keys && forall k :: k in keys ==> HasText(m[k])
    ensures HasText(Obj(Part(m, keys)))
    decreases |keys|
  {
    if keys == {} {
      assert Part(m, keys) == map[];
      Literal('o', Obj(map[]));
    } else {
      var k :| k in keys;
      var less := keys - {k};
      FieldsWritable(m, less);
      StringWritable(k);
      var text :| Writes(text, Obj(Part(m, less)));
      var key :| Writes(key, Str(k));
      var value :| Writes(value, m[k]);
      assert Part(m, keys) == Part(m, less)[k := m[k]];
      Insert(text, Part(m, less), key, k, value, m[k]);
    }
  }

  lemma Insert(text: string, m: Fields, key: string, k: string, value: string, j: Json)
    requires Writes(text, Obj(m)) && Writes(key, Str(k)) && Writes(value, j)
    ensures Writes(text + key + value + ":", Obj(m[k := j]))
  {
    forall stack ensures Run(text + key + value + ":", stack) == stack + [Obj(m[k := j])] {
      RunAppend(text + key + value, ":", stack);
      RunAppend(text + key, value, stack);
      RunAppend(text, key, stack);
      var full := stack + [Obj(m)] + [Str(k)] + [j];
      assert Run(text + key + value, stack) == full;
      RunOne(':', full);
      assert full[..|full| - 3] == stack;
    }
  }

  /** Every JSON value has a text. */
  lemma {:induction false} Writable(j: Json)
    ensures HasText(j)
  {
    match j
    case Null => Literal('n', Null);
    case Bool(b) => Literal(if b then 't' else 'f', j);
    case Num(n) => NumberWritable(n);
    case Str(s) => StringWritable(s);
    case Float(t) =>
      StringWritable(t);
      var text :| Writes(text, Str(t));
      AsFloat(text, t);
    case Arr(xs) =>
      forall i | 0 <= i < |xs| ensures HasText(xs[i]) {
        Writable(xs[i]);
      }
      ItemsWritable(xs, |xs|);
      assert xs[..|xs|] == xs;
    case Obj(m) =>
      forall k | k in m ensures HasText(m[k]) {
        Writable(m[k]);
      }
      FieldsWritable(m, m.Keys);
      assert Part(m, m.Keys) == m;
  }

  /** A text of a field set. */
  ghost function TextOf(m: Fields): string {
    Writable(Obj(m));
    var text :| Writes(text, Obj(m));
    text
  }

  /** Injective identities exist: the text can be read back. */
  lemma TextInjective()
    ensures Injective(TextOf)
  {
    forall a, b | TextOf(a) == TextOf(b) ensures a == b {
      TextWrites(a);
      TextWrites(b);
      assert Run(TextOf(a), []) == [Obj(a)] && Run(TextOf(b), []) == [Obj(b)];
    }
  }

  lemma TextWrites(m: Fields)
    ensures Writes(TextOf(m), Obj(m))
  {
    Writable(Obj(m));
  }

  /* ---- A record that migrates and is then refused ---- */

  /** The smallest record table entry with an identity. */
  ghost function Example(): Spec {
    Spec("t", Some("id"), {}, {}, {"id", EXTENSIONS}, false, TextOf, (p: Fields) => true)
  }

  ghost function ExampleFields(extensions: Fields): Fields {
    var p: Fields := map[EXTENSIONS := Obj(extensions), "u" := Null];
    p["id" := Str(TextOf(p))]
  }

  lemma ExampleMigrates(extensions: Fields)
    requires UNKNOWNS !in extensions && forall k :: k in extensions ==> extensions[k] == Null
    ensures var spec, d := Example(), ExampleFields(extensions);
            && WellFormed(spec) && Injective(spec.identity) && Fits(Obj(d), 0) && Legacy(spec, d, false).Ok?
            && NestsDeeper(spec, d) && Migration.Unknown(spec, d) == {"u"} && Get(d, EXTENSIONS) == Obj(extensions)
  {
    var spec, d := Example(), ExampleFields(extensions);
    TextInjective();
    assert Projection(spec, d) == map[EXTENSIONS := Obj(extensions), "u" := Null];
    assert Migration.Unknown(spec, d) == {"u"};
    assert IdentityHolds(spec, d, false);
    assert Preserved(spec, d) == Ok(Moved(spec, d));
    PreservedStable(spec, d);
    assert Fits(Obj(extensions), 1);
  }

  /** With an empty `extensions` the migrated record is refused; with a non-empty one it is read back as itself. */
  lemma EmptyExtensionsExample()
    ensures var spec, d := Example(), ExampleFields(map[]);
            Legacy(spec, d, false).Ok? && Normalize(spec, ToJson(Legacy(spec, d, false).value)) == Err(RecordIdentity)
    ensures var spec, d := Example(), ExampleFields(map["e" := Null]);
            && Legacy(spec, d, false).Ok?
            && Normalize(spec, ToJson(Legacy(spec, d, false).value)) == Legacy(spec, d, false)
  {
    ExampleMigrates(map[]);
    EmptyExtensionsBreak(Example(), ExampleFields(map[]));
    var some: Fields := map["e" := Null];
    ExampleMigrates(some);
    assert some != map[] by {
      assert "e" in some;
    }
    LegacyFixedPoint(Example(), ExampleFields(some), false);
  }
}
