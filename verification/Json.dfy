/** JSON values as serde_json holds them: an object is a list of fields in
    insertion order (the `preserve_order` representation), with no key twice.
    `Denote` is what a value means once field order is forgotten, and `Sorted`
    is `Value::sort_all_objects`. */
module Json {
  import opened Text

  datatype List<+T> = Nil | Cons(head: T, tail: List<T>)

  datatype Field = Field(key: string, value: Json)

  datatype Json =
    | Null
    | Bool(b: bool)
    | Num(n: int)
    | Str(s: string)
    | Arr(items: List<Json>)
    | Obj(fields: List<Field>)

  function Keys(fs: List<Field>): set<string> {
    match fs
    case Nil => {}
    case Cons(f, rest) => {f.key} + Keys(rest)
  }

  /** No object, at any depth, has the same key twice. */
  predicate Valid(v: Json) {
    match v
    case Arr(xs) => ValidItems(xs)
    case Obj(fs) => ValidFields(fs)
    case _ => true
  }

  predicate ValidItems(xs: List<Json>) {
    xs.Cons? ==> Valid(xs.head) && ValidItems(xs.tail)
  }

  predicate ValidFields(fs: List<Field>) {
    fs.Cons? ==> fs.head.key !in Keys(fs.tail) && Valid(fs.head.value) && ValidFields(fs.tail)
  }

  // ---- meaning: an object is an unordered collection of fields -----------------

  datatype Meaning =
    | MNull
    | MBool(b: bool)
    | MNum(n: int)
    | MStr(s: string)
    | MArr(items: List<Meaning>)
    | MObj(fields: map<string, Meaning>)

  function Denote(v: Json): Meaning {
    match v
    case Null => MNull
    case Bool(b) => MBool(b)
    case Num(n) => MNum(n)
    case Str(s) => MStr(s)
    case Arr(xs) => MArr(DenoteItems(xs))
    case Obj(fs) => MObj(DenoteFields(fs))
  }

  function DenoteItems(xs: List<Json>): List<Meaning> {
    match xs
    case Nil => Nil
    case Cons(x, rest) => Cons(Denote(x), DenoteItems(rest))
  }

  function DenoteFields(fs: List<Field>): (m: map<string, Meaning>)
    ensures m.Keys == Keys(fs)
  {
    match fs
    case Nil => map[]
    case Cons(f, rest) => DenoteFields(rest)[f.key := Denote(f.value)]
  }

  // ---- sorting every object ----------------------------------------------------

  function Sorted(v: Json): Json {
    match v
    case Arr(xs) => Arr(SortedItems(xs))
    case Obj(fs) => Obj(SortedFields(fs))
    case _ => v
  }

  function SortedItems(xs: List<Json>): List<Json> {
    match xs
    case Nil => Nil
    case Cons(x, rest) => Cons(Sorted(x), SortedItems(rest))
  }

  function SortedFields(fs: List<Field>): List<Field> {
    match fs
    case Nil => Nil
    case Cons(f, rest) => Insert(Field(f.key, Sorted(f.value)), SortedFields(rest))
  }

  function Insert(f: Field, fs: List<Field>): List<Field> {
    match fs
    case Nil => Cons(f, Nil)
    case Cons(g, rest) => if Less(f.key, g.key) then Cons(f, fs) else Cons(g, Insert(f, rest))
  }

  /** Every object, at every depth, has strictly increasing keys. */
  predicate InOrder(v: Json) {
    match v
    case Arr(xs) => ItemsInOrder(xs)
    case Obj(fs) => FieldsInOrder(fs)
    case _ => true
  }

  predicate ItemsInOrder(xs: List<Json>) {
    xs.Cons? ==> InOrder(xs.head) && ItemsInOrder(xs.tail)
  }

  predicate FieldsInOrder(fs: List<Field>) {
    fs.Cons? ==>
      && InOrder(fs.head.value)
      && FieldsInOrder(fs.tail)
      && (fs.tail.Cons? ==> Less(fs.head.key, fs.tail.head.key))
  }

  lemma {:induction false} HeadIsLeast(fs: List<Field>)
    requires FieldsInOrder(fs) && fs.Cons?
    ensures forall k | k in Keys(fs.tail) :: Less(fs.head.key, k)
  {
    if fs.tail.Cons? {
      HeadIsLeast(fs.tail);
      forall k | k in Keys(fs.tail.tail) ensures Less(fs.head.key, k) {
        LessTransitive(fs.head.key, fs.tail.head.key, k);
      }
    }
  }

  lemma {:induction false} InsertIsAUpdate(f: Field, fs: List<Field>)
    requires f.key !in Keys(fs)
    ensures Keys(Insert(f, fs)) == Keys(fs) + {f.key}
    ensures DenoteFields(Insert(f, fs)) == DenoteFields(fs)[f.key := Denote(f.value)]
  {
    if fs.Cons? { InsertIsAUpdate(f, fs.tail); }
  }

  lemma {:induction false} InsertKeepsOrder(f: Field, fs: List<Field>)
    requires FieldsInOrder(fs) && InOrder(f.value) && f.key !in Keys(fs)
    ensures FieldsInOrder(Insert(f, fs))
  {
    if fs.Cons? && !Less(f.key, fs.head.key) {
      LessTotal(f.key, fs.head.key);
      InsertKeepsOrder(f, fs.tail);
    }
  }

  /** Sorting yields ordered objects, and forgets nothing but the order. */
  lemma {:induction false} SortedIsSound(v: Json)
    requires Valid(v)
    ensures InOrder(Sorted(v)) && Denote(Sorted(v)) == Denote(v)
  {
    match v
    case Arr(xs) => SortedItemsSound(xs);
    case Obj(fs) => SortedFieldsSound(fs);
    case _ =>
  }

  lemma {:induction false} SortedItemsSound(xs: List<Json>)
    requires ValidItems(xs)
    ensures ItemsInOrder(SortedItems(xs)) && DenoteItems(SortedItems(xs)) == DenoteItems(xs)
  {
    if xs.Cons? {
      SortedIsSound(xs.head);
      SortedItemsSound(xs.tail);
    }
  }

  lemma {:induction false} SortedFieldsSound(fs: List<Field>)
    requires ValidFields(fs)
    ensures FieldsInOrder(SortedFields(fs)) && DenoteFields(SortedFields(fs)) == DenoteFields(fs)
  {
    if fs.Cons? {
      var f := Field(fs.head.key, Sorted(fs.head.value));
      SortedIsSound(fs.head.value);
      SortedFieldsSound(fs.tail);
      assert Keys(SortedFields(fs.tail)) == DenoteFields(SortedFields(fs.tail)).Keys;
      InsertIsAUpdate(f, SortedFields(fs.tail));
      InsertKeepsOrder(f, SortedFields(fs.tail));
    }
  }

  // ---- ordered values are determined by their meaning ---------------------------

  lemma {:induction false} OrderedIsUnique(a: Json, b: Json)
    requires InOrder(a) && InOrder(b) && Denote(a) == Denote(b)
    ensures a == b
  {
    match a
    case Arr(xs) => OrderedItemsUnique(xs, b.items);
    case Obj(fs) => OrderedFieldsUnique(fs, b.fields);
    case _ =>
  }

  lemma {:induction false} OrderedItemsUnique(xs: List<Json>, ys: List<Json>)
    requires ItemsInOrder(xs) && ItemsInOrder(ys) && DenoteItems(xs) == DenoteItems(ys)
    ensures xs == ys
  {
    if xs.Cons? {
      OrderedIsUnique(xs.head, ys.head);
      OrderedItemsUnique(xs.tail, ys.tail);
    }
  }

  lemma {:induction false} SameLeastKey(fs: List<Field>, gs: List<Field>)
    requires FieldsInOrder(fs) && FieldsInOrder(gs) && fs.Cons? && gs.Cons?
    requires Keys(fs) == Keys(gs)
    ensures fs.head.key == gs.head.key && Keys(fs.tail) == Keys(gs.tail)
    ensures fs.head.key !in Keys(fs.tail) && gs.head.key !in Keys(gs.tail)
  {
    HeadIsLeast(fs);
    HeadIsLeast(gs);
    var k, l := fs.head.key, gs.head.key;
    assert k in Keys(gs) && l in Keys(fs);
    if k != l { LessAsymmetric(k, l); }
    LessIrreflexive(k);
    assert Keys(fs.tail) == Keys(fs) - {k} && Keys(gs.tail) == Keys(gs) - {k};
  }

  lemma {:induction false} OrderedFieldsUnique(fs: List<Field>, gs: List<Field>)
    requires FieldsInOrder(fs) && FieldsInOrder(gs) && DenoteFields(fs) == DenoteFields(gs)
    ensures fs == gs
  {
    assert Keys(fs) == DenoteFields(fs).Keys == DenoteFields(gs).Keys == Keys(gs);
    if fs.Cons? {
      assert fs.head.key in Keys(gs);
      SameLeastKey(fs, gs);
      var k := fs.head.key;
      assert DenoteFields(fs.tail) == DenoteFields(fs) - {k};
      assert DenoteFields(gs.tail) == DenoteFields(gs) - {k};
      assert Denote(fs.head.value) == DenoteFields(fs)[k] == Denote(gs.head.value);
      OrderedIsUnique(fs.head.value, gs.head.value);
      OrderedFieldsUnique(fs.tail, gs.tail);
    }
  }

  lemma {:induction false} InOrderIsValid(v: Json)
    requires InOrder(v)
    ensures Valid(v)
  {
    match v
    case Arr(xs) => ItemsInOrderValid(xs);
    case Obj(fs) => FieldsInOrderValid(fs);
    case _ =>
  }

  lemma {:induction false} ItemsInOrderValid(xs: List<Json>)
    requires ItemsInOrder(xs)
    ensures ValidItems(xs)
  {
    if xs.Cons? {
      InOrderIsValid(xs.head);
      ItemsInOrderValid(xs.tail);
    }
  }

  lemma {:induction false} FieldsInOrderValid(fs: List<Field>)
    requires FieldsInOrder(fs)
    ensures ValidFields(fs)
  {
    if fs.Cons? {
      HeadIsLeast(fs);
      LessIrreflexive(fs.head.key);
      InOrderIsValid(fs.head.value);
      FieldsInOrderValid(fs.tail);
    }
  }

  /** Sorting twice is sorting once. */
  lemma SortingIsIdempotent(v: Json)
    requires Valid(v)
    ensures Sorted(Sorted(v)) == Sorted(v)
  {
    SortedIsSound(v);
    InOrderIsValid(Sorted(v));
    SortedIsSound(Sorted(v));
    OrderedIsUnique(Sorted(Sorted(v)), Sorted(v));
  }

  /** Two values sort to the same value exactly when they mean the same. */
  lemma SortedEqualIffSameMeaning(a: Json, b: Json)
    requires Valid(a) && Valid(b)
    ensures Sorted(a) == Sorted(b) <==> Denote(a) == Denote(b)
  {
    SortedIsSound(a);
    SortedIsSound(b);
    if Denote(a) == Denote(b) { OrderedIsUnique(Sorted(a), Sorted(b)); }
  }
}
