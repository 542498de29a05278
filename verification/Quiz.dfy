/**
 * The quiz generator: a variant chosen by the seed, laid out by shuffles, graded all-or-nothing.
 *
 * Localized texts appear as the reader's text. Randomness is an arbitrary source of draws per seed.
 */
module Quiz {
  import opened Text
  import opened Sequences
  import opened Shuffle

  /** The JSON values answers and payloads are made of. */
  datatype Json =
    | Null
    | Str(s: string)
    | Bool(b: bool)
    | Num(n: int)
    | List(items: seq<Json>)
    | Obj(fields: map<string, Json>)
  type Fields = map<string, Json>

  /** `choice(seed, n)` is an index below `n`; `shuffle(seed, n)` the draws of a shuffle of `n`; `show` is `str`. */
  datatype World = World(choice: (int, nat) -> nat, shuffle: (int, nat) -> seq<nat>, show: Json -> string)

  ghost predicate Fair(w: World) {
    && (forall seed, n: nat :: n > 0 ==> w.choice(seed, n) < n)
    && (forall seed, n: nat :: Draws(w.shuffle(seed, n), n))
    && (forall s :: w.show(Str(s)) == s)
  }

  datatype Kind = SingleChoice | TrueFalse | MultiSelect | Ordering | Matching
  datatype QuizOption = QuizOption(id: string, text: string, correct: bool)
  datatype OrderItem = OrderItem(id: string, text: string, position: int)
  datatype MatchPair = MatchPair(id: string, left: string, right: string)
  datatype Variant = Variant(
    id: string, kind: Kind, options: seq<QuizOption>, answer: Option<bool>,
    items: seq<OrderItem>, pairs: seq<MatchPair>)

  // ---- validation ----

  function CorrectIds(options: seq<QuizOption>): (r: seq<string>) {
    if options == [] then []
    else (if options[0].correct then [options[0].id] else []) + CorrectIds(options[1..])
  }

  function Positions(items: seq<OrderItem>): (r: seq<int>)
    ensures |r| == |items|
  {
    seq(|items|, i requires 0 <= i < |items| => items[i].position)
  }

  function Ascending(): (leq: (int, int) -> bool) {
    (a, b) => a <= b
  }

  /** A sub-kind's fields are the only ones filled in. */
  predicate OnlySets(v: Variant) {
    && (v.options != [] ==> v.kind.SingleChoice? || v.kind.MultiSelect?)
    && (v.answer.Some? ==> v.kind.TrueFalse?)
    && (v.items != [] ==> v.kind.Ordering?)
    && (v.pairs != [] ==> v.kind.Matching?)
  }

  /** The variants the loader accepts. */
  ghost predicate Accepted(v: Variant) {
    && OnlySets(v)
    && match v.kind
       case SingleChoice =>
         |v.options| >= 2 && NoDup(OptionIds(v)) && |CorrectIds(v.options)| == 1
       case MultiSelect =>
         |v.options| >= 2 && NoDup(OptionIds(v)) && 1 <= |CorrectIds(v.options)| < |v.options|
       case TrueFalse => v.answer.Some?
       case Ordering =>
         |v.items| >= 3 && NoDup(ItemIds(v.items))
         && Sort(Positions(v.items), Ascending()) == seq(|v.items|, i => i + 1)
       case Matching => |v.pairs| >= 3 && NoDup(seq(|v.pairs|, i requires 0 <= i < |v.pairs| => v.pairs[i].id))
  }

  ghost predicate AcceptedBank(variants: seq<Variant>) {
    variants != [] && forall v :: v in variants ==> Accepted(v)
  }

  function OptionIds(v: Variant): (r: seq<string>)
    ensures |r| == |v.options|
  {
    seq(|v.options|, i requires 0 <= i < |v.options| => v.options[i].id)
  }

  function ItemIds(items: seq<OrderItem>): (r: seq<string>)
    ensures |r| == |items|
  {
    seq(|items|, i requires 0 <= i < |items| => items[i].id)
  }

  // ---- laying out ----

  function Chosen(w: World, variants: seq<Variant>, seed: int): (v: Variant)
    requires variants != [] && Fair(w)
  {
    variants[w.choice(seed, |variants|)]
  }

  /** The salted shuffle of `n` slots. */
  function Order(w: World, n: nat, seed: int, salt: int): (order: seq<nat>)
    requires Fair(w)
    ensures IsOrder(order, n)
  {
    ShuffleIsOrder(n, w.shuffle(seed * 1000 + salt, n));
    ShuffleOf(Range(n), w.shuffle(seed * 1000 + salt, n))
  }

  function KindName(k: Kind): (s: string) {
    match k
    case SingleChoice => "single_choice"
    case TrueFalse => "true_false"
    case MultiSelect => "multi_select"
    case Ordering => "ordering"
    case Matching => "matching"
  }

  function Row(id: string, text: string): (j: Json) {
    Obj(map["id" := Str(id), "text" := Str(text)])
  }

  function LeftId(slot: nat): (id: string) { "l" + Digits(slot) }

  function RightId(slot: nat): (id: string) { "r" + Digits(slot) }

  /** What the reader sees: the rows of each list in shuffled order. */
  function Payload(w: World, v: Variant, seed: int): (p: Fields)
    requires Fair(w)
  {
    var kind := map["kind" := Str(KindName(v.kind))];
    match v.kind
    case SingleChoice => kind["options" := List(OptionRows(v, Order(w, |v.options|, seed, 0)))]
    case MultiSelect => kind["options" := List(OptionRows(v, Order(w, |v.options|, seed, 0)))]
    case TrueFalse => kind
    case Ordering => kind["items" := List(ItemRows(v, Order(w, |v.items|, seed, 0)))]
    case Matching =>
      kind["lefts" := List(LeftRows(v, Order(w, |v.pairs|, seed, 1)))]
          ["rights" := List(RightRows(v, Order(w, |v.pairs|, seed, 2)))]
  }

  function OptionRows(v: Variant, order: seq<nat>): (r: seq<Json>)
    requires IsOrder(order, |v.options|)
    ensures |r| == |order|
  {
    seq(|order|, s requires 0 <= s < |order| => Row(v.options[order[s]].id, v.options[order[s]].text))
  }

  function ItemRows(v: Variant, order: seq<nat>): (r: seq<Json>)
    requires IsOrder(order, |v.items|)
    ensures |r| == |order|
  {
    seq(|order|, s requires 0 <= s < |order| => Row(v.items[order[s]].id, v.items[order[s]].text))
  }

  function LeftRows(v: Variant, order: seq<nat>): (r: seq<Json>)
    requires IsOrder(order, |v.pairs|)
    ensures |r| == |order|
  {
    seq(|order|, s requires 0 <= s < |order| => Row(LeftId(s), v.pairs[order[s]].left))
  }

  function RightRows(v: Variant, order: seq<nat>): (r: seq<Json>)
    requires IsOrder(order, |v.pairs|)
    ensures |r| == |order|
  {
    seq(|order|, s requires 0 <= s < |order| => Row(RightId(s), v.pairs[order[s]].right))
  }

  // ---- grading ----

  datatype Outcome = Graded(correct: bool, revealed: Fields) | Invalid

  function Field(answer: Fields, key: string): (j: Json) {
    if key in answer then answer[key] else Null
  }

  predicate AllStrings(items: seq<Json>) {
    forall i :: 0 <= i < |items| ==> items[i].Str?
  }

  function Strings(items: seq<Json>): (r: seq<string>)
    requires AllStrings(items)
    ensures |r| == |items|
  {
    seq(|items|, i requires 0 <= i < |items| => items[i].s)
  }

  function Quoted(ids: seq<string>): (r: seq<Json>)
    ensures AllStrings(r) && Strings(r) == ids
  {
    seq(|ids|, i requires 0 <= i < |ids| => Str(ids[i]))
  }

  function LexOrder(): (leq: (string, string) -> bool) {
    (a, b) => LexLeq(a, b)
  }

  function ByPosition(): (leq: (OrderItem, OrderItem) -> bool) {
    (a: OrderItem, b: OrderItem) => a.position <= b.position
  }

  /** The item ids in the order of their positions. */
  function CorrectOrder(items: seq<OrderItem>): (r: seq<string>) {
    ItemIds(Sort(items, ByPosition()))
  }

  /** The first `n` pairs, left slot to right slot. */
  function PairMap(lorder: seq<nat>, rorder: seq<nat>, n: nat): (m: map<string, string>)
    requires forall i: nat :: i < n ==> i in lorder && i in rorder
  {
    if n == 0 then map[]
    else PairMap(lorder, rorder, n - 1)[LeftId(IndexOf(lorder, n - 1)) := RightId(IndexOf(rorder, n - 1))]
  }

  function CorrectMap(w: World, v: Variant, seed: int): (m: map<string, string>)
    requires Fair(w)
  {
    var n := |v.pairs|;
    var lorder, rorder := Order(w, n, seed, 1), Order(w, n, seed, 2);
    OrdersAreOnto(lorder, rorder, n);
    PairMap(lorder, rorder, n)
  }

  lemma OrdersAreOnto(lorder: seq<nat>, rorder: seq<nat>, n: nat)
    requires IsOrder(lorder, n) && IsOrder(rorder, n)
    ensures forall i: nat :: i < n ==> i in lorder && i in rorder
  {
    forall i: nat | i < n ensures i in lorder && i in rorder {
      OrderIsOnto(lorder, n, i);
      OrderIsOnto(rorder, n, i);
    }
  }

  function Shown(w: World, pairs: Fields): (m: map<string, string>) {
    map k | k in pairs :: w.show(pairs[k])
  }

  function QuotedMap(m: map<string, string>): (r: Fields) {
    map k | k in m :: Str(m[k])
  }

  /** Grading an answer against the variant its seed selects. */
  function GradeVariant(w: World, v: Variant, seed: int, answer: Fields): (o: Outcome)
    requires Fair(w)
    requires v.kind.SingleChoice? ==> CorrectIds(v.options) != []
    requires v.kind.TrueFalse? ==> v.answer.Some?
  {
    match v.kind
    case SingleChoice =>
      var selected := Field(answer, "optionId");
      if !selected.Str? then Invalid
      else
        var right := CorrectIds(v.options)[0];
        Graded(selected.s == right, map["optionId" := Str(right)])
    case MultiSelect =>
      var selected := Field(answer, "optionIds");
      if !selected.List? || !AllStrings(selected.items) then Invalid
      else
        var right := CorrectIds(v.options);
        Graded(Elements(Strings(selected.items)) == Elements(right),
               map["optionIds" := List(Quoted(Sort(right, LexOrder())))])
    case TrueFalse =>
      var value := Field(answer, "value");
      if !value.Bool? then Invalid
      else Graded(value.b == v.answer.value, map["value" := Bool(v.answer.value)])
    case Ordering =>
      var order := Field(answer, "order");
      if !order.List? || !AllStrings(order.items) then Invalid
      else
        Graded(Strings(order.items) == CorrectOrder(v.items),
               map["order" := List(Quoted(CorrectOrder(v.items)))])
    case Matching =>
      var pairs := Field(answer, "pairs");
      if !pairs.Obj? then Invalid
      else
        Graded(Shown(w, pairs.fields) == CorrectMap(w, v, seed),
               map["pairs" := Obj(QuotedMap(CorrectMap(w, v, seed)))])
  }

  // ---- what the right answers are ----

  lemma {:induction false} CorrectIdsAreMarked(options: seq<QuizOption>, id: string)
    ensures id in CorrectIds(options) <==> exists i :: 0 <= i < |options| && options[i].correct && options[i].id == id
  {
    if options != [] {
      CorrectIdsAreMarked(options[1..], id);
      if i :| 0 <= i < |options| && options[i].correct && options[i].id == id {
        if i > 0 { assert options[1..][i - 1] == options[i]; }
      }
      if i :| 0 <= i < |options[1..]| && options[1..][i].correct && options[1..][i].id == id {
        assert options[i + 1] == options[1..][i];
      }
    }
  }

  lemma PositionOrderIsTotal()
    ensures TotalPreorder(ByPosition())
  {
  }

  /** In an accepted ordering, position `k` is held by exactly one item, and that item comes `k`-th. */
  lemma OrderingIsByPosition(v: Variant, k: nat)
    requires v.kind.Ordering? && Accepted(v) && k < |v.items|
    ensures var s := Sort(v.items, ByPosition());
      |s| == |v.items| && s[k].position == k + 1 && s[k] in v.items && CorrectOrder(v.items)[k] == s[k].id
  {
    var s := Sort(v.items, ByPosition());
    SortPermutes(v.items, ByPosition());
    PositionOrderIsTotal();
    SortSorts(v.items, ByPosition());
    assert s[k] in s;
    SortCommutesWithPositions(v.items);
    assert Positions(s)[k] == s[k].position;
    assert Sort(Positions(v.items), Ascending())[k] == k + 1;
  }

  lemma {:induction false} InsertCommutes(x: OrderItem, s: seq<OrderItem>)
    ensures Positions(Insert(x, s, ByPosition())) == Insert(x.position, Positions(s), Ascending())
  {
    if s == [] || ByPosition()(x, s[0]) {
      assert Positions([x] + s) == [x.position] + Positions(s);
    } else {
      InsertCommutes(x, s[1..]);
      assert Positions(s)[1..] == Positions(s[1..]);
      var t := Insert(x, s[1..], ByPosition());
      assert Positions([s[0]] + t) == [s[0].position] + Positions(t);
    }
  }

  lemma {:induction false} SortCommutesWithPositions(s: seq<OrderItem>)
    ensures Positions(Sort(s, ByPosition())) == Sort(Positions(s), Ascending())
  {
    if s != [] {
      SortCommutesWithPositions(s[1..]);
      InsertCommutes(s[0], Sort(s[1..], ByPosition()));
      assert Positions(s)[1..] == Positions(s[1..]);
    }
  }

  // ---- matching ----

  lemma LeftIdInjective(a: nat, b: nat)
    requires LeftId(a) == LeftId(b)
    ensures a == b
  {
    assert LeftId(a)[1..] == Digits(a) && LeftId(b)[1..] == Digits(b);
    DigitsInjective(a, b);
  }

  lemma RightIdInjective(a: nat, b: nat)
    requires RightId(a) == RightId(b)
    ensures a == b
  {
    assert RightId(a)[1..] == Digits(a) && RightId(b)[1..] == Digits(b);
    DigitsInjective(a, b);
  }

  lemma {:induction false} PairMapAt(lorder: seq<nat>, rorder: seq<nat>, n: nat, i: nat)
    requires forall i: nat :: i < n ==> i in lorder && i in rorder
    requires i in lorder && i in rorder
    ensures LeftId(IndexOf(lorder, i)) in PairMap(lorder, rorder, n) <==> i < n
    ensures i < n ==> PairMap(lorder, rorder, n)[LeftId(IndexOf(lorder, i))] == RightId(IndexOf(rorder, i))
  {
    if n > 0 {
      PairMapAt(lorder, rorder, n - 1, i);
      if LeftId(IndexOf(lorder, i)) == LeftId(IndexOf(lorder, n - 1)) {
        LeftIdInjective(IndexOf(lorder, i), IndexOf(lorder, n - 1));
      }
    }
  }

  lemma {:induction false} PairMapKeys(lorder: seq<nat>, rorder: seq<nat>, n: nat, k: string)
    requires forall i: nat :: i < n ==> i in lorder && i in rorder
    requires k in PairMap(lorder, rorder, n)
    ensures exists s: nat :: s < |lorder| && k == LeftId(s)
  {
    if k == LeftId(IndexOf(lorder, n - 1)) {
    } else {
      PairMapKeys(lorder, rorder, n - 1, k);
    }
  }

  /** `m` joins every left slot to the right slot that shows the same pair, and nothing else. */
  ghost predicate JoinsPairs(m: map<string, string>, lorder: seq<nat>, rorder: seq<nat>) {
    && (forall s: nat :: s < |lorder| ==> LeftId(s) in m)
    && (forall k :: k in m ==> exists s: nat :: s < |lorder| && k == LeftId(s))
    && (forall s: nat, t: nat :: s < |lorder| && t < |rorder| && LeftId(s) in m ==>
          (m[LeftId(s)] == RightId(t) <==> lorder[s] == rorder[t]))
  }

  /** The accepted matching composes the two shuffles. */
  lemma CorrectMapJoinsPairs(lorder: seq<nat>, rorder: seq<nat>, n: nat)
    requires IsOrder(lorder, n) && IsOrder(rorder, n)
    ensures forall i: nat :: i < n ==> i in lorder && i in rorder
    ensures JoinsPairs(PairMap(lorder, rorder, n), lorder, rorder)
  {
    OrdersAreOnto(lorder, rorder, n);
    var m := PairMap(lorder, rorder, n);
    forall s: nat | s < n ensures LeftId(s) in m && m[LeftId(s)] == RightId(IndexOf(rorder, lorder[s])) {
      SlotUnique(lorder, s);
      PairMapAt(lorder, rorder, n, lorder[s]);
    }
    forall k | k in m ensures exists s: nat :: s < |lorder| && k == LeftId(s) {
      PairMapKeys(lorder, rorder, n, k);
    }
    forall s: nat, t: nat | s < n && t < n ensures m[LeftId(s)] == RightId(t) <==> lorder[s] == rorder[t] {
      if m[LeftId(s)] == RightId(t) { RightIdInjective(IndexOf(rorder, lorder[s]), t); }
      if lorder[s] == rorder[t] { SlotUnique(rorder, t); }
    }
  }

  /** It is the only map that does, and no two left slots share a right one. */
  lemma JoinIsUniqueBijection(a: map<string, string>, b: map<string, string>, lorder: seq<nat>, rorder: seq<nat>)
    requires IsOrder(lorder, |lorder|) && IsOrder(rorder, |lorder|)
    requires JoinsPairs(a, lorder, rorder) && JoinsPairs(b, lorder, rorder)
    ensures a == b
    ensures forall k, l :: k in a && l in a && a[k] == a[l] ==> k == l
  {
    forall k | k in a ensures k in b && a[k] == b[k] {
      var s: nat :| s < |lorder| && k == LeftId(s);
      OrderIsOnto(rorder, |lorder|, lorder[s]);
      var t := IndexOf(rorder, lorder[s]);
      assert a[LeftId(s)] == RightId(t);
    }
    forall k, l | k in a && l in a && a[k] == a[l] ensures k == l {
      var s: nat :| s < |lorder| && k == LeftId(s);
      var u: nat :| u < |lorder| && l == LeftId(u);
      OrderIsOnto(rorder, |lorder|, lorder[s]);
      var t := IndexOf(rorder, lorder[s]);
      assert a[LeftId(s)] == RightId(t);
      assert a[LeftId(u)] == RightId(t);
      assert lorder[s] == lorder[u];
    }
    assert a.Keys == b.Keys;
  }
}
