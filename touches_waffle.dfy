/** The waffle charts of touches per zone: each country's three counts
    expanded into one square per touch, the squares laid out column by
    column, and the colour of each square. */
module TouchesWaffle {
  import opened Wrappers
  import opened JsString

  /** One record of `data`: a country and its touches in each zone. */
  datatype Touches = Touches(country: string, defense: nat, middle: nat, attack: nat)

  const Data: seq<Touches> := [
    Touches("Morroco", 47 * 2, 36 * 2, 17 * 2),
    Touches("Argentina", 30 * 2, 46 * 2, 24 * 2),
    Touches("France", 31 * 2, 45 * 2, 24 * 2),
    Touches("Croatia", 34 * 2, 45 * 2, 21 * 2),
    Touches("Senegal", 38 * 2, 37 * 2, 25 * 2),
    Touches("Tunisia", 43 * 2, 37 * 2, 20 * 2),
    Touches("Ghana", 41 * 2, 32 * 2, 27 * 2)
  ]

  /** `Object.keys(rest)`: the record's keys without `country`, in the
      order they are written. */
  const Keys: seq<string> := ["defense", "middle", "attack"]

  const Colors: seq<string> := ["#21A179", "#1481BA", "#F3535B"]

  const Width: int := 400
  const Height: int := 140
  const BoxSize: int := 14
  const BoxGap: int := 2
  const HowManyAcross: int := Height / BoxSize

  /** `rest[key]` for each key, in key order. */
  function Counts(d: Touches): (c: seq<nat>)
    ensures |c| == |Keys|
  {
    [d.defense, d.middle, d.attack]
  }

  /** The counts of the first `n` keys added up. */
  function CountsBefore(d: Touches, n: nat): nat
    requires n <= |Keys|
  {
    if n == 0 then 0 else CountsBefore(d, n - 1) + Counts(d)[n - 1]
  }

  function Total(d: Touches): nat {
    d.defense + d.middle + d.attack
  }

  /** `(rest[key] / totalCount) * 100`. With no touches at all it is `NaN`,
      but then no square carries it, and it is written 0 here. */
  function Percentage(count: nat, total: nat): real {
    if total == 0 then 0.0 else count as real / total as real * 100.0
  }

  /** The object every square of one key of one country is bound to
      (`fill` puts the same object in every slot); `key` is its `label`.
      `row` is the country's index: two countries' objects for the same
      key are different objects. */
  datatype Entry = Entry(row: nat, key: string, percentage: real)

  /** The entry of key `k` of the country at `row`. */
  function Square(d: Touches, row: nat, k: nat): Entry
    requires k < |Keys|
  {
    Entry(row, Keys[k], Percentage(Counts(d)[k], Total(d)))
  }

  /** The squares of the first `n` keys: each key's count of its entry,
      key after key. */
  function Blocks(d: Touches, row: nat, n: nat): (s: seq<Entry>)
    requires n <= |Keys|
    ensures |s| == CountsBefore(d, n)
    ensures forall i :: 0 <= i < |s| ==> s[i].row == row
  {
    if n == 0 then []
    else Blocks(d, row, n - 1) + seq(Counts(d)[n - 1], _ => Square(d, row, n - 1))
  }

  /** The `data` array `drawWaffle` binds to a country's squares. */
  function Expansion(d: Touches, row: nat): (s: seq<Entry>)
    ensures |s| == Total(d)
    ensures forall i :: 0 <= i < |s| ==> s[i].row == row
  {
    assert CountsBefore(d, 1) == d.defense;
    assert CountsBefore(d, 2) == d.defense + d.middle;
    Blocks(d, row, |Keys|)
  }

  /** The key a square at index `i` belongs to, read off the counts. */
  function BlockOf(d: Touches, i: nat): nat {
    if i < d.defense then 0 else if i < d.defense + d.middle then 1 else 2
  }

  /** The entries of `s` with key `name`. */
  function Occurrences(s: seq<Entry>, name: string): nat {
    if s == [] then 0 else (if s[0].key == name then 1 else 0) + Occurrences(s[1..], name)
  }

  /** A square's `fill`: `colors[Object.keys(rest).indexOf(d.label)]`,
      undefined for a name that is not a key. */
  function Fill(name: string): Option<string> {
    var k := IndexOf(Keys, name);
    if k < 0 then None else Some(Colors[k])
  }

  /** A square's `x` and `y`: columns of `howManyAcross` squares, filled
      top to bottom, left to right. */
  function X(i: nat): int {
    BoxSize * (i / HowManyAcross)
  }

  function Y(i: nat): int {
    BoxSize * (i % HowManyAcross)
  }

  /** The two loops of `drawWaffle` that build a country's `data`: the
      counts added up, then each key's count of copies of its entry
      pushed, key after key. */
  method Expand(d: Touches, row: nat) returns (data: seq<Entry>, totalCount: nat)
    ensures totalCount == Total(d)
    ensures data == Expansion(d, row)
  {
    var rest := Counts(d);
    totalCount := 0;
    for k := 0 to |Keys|
      invariant totalCount == CountsBefore(d, k)
    {
      totalCount := totalCount + rest[k];
    }
    data := [];
    for k := 0 to |Keys|
      invariant data == Blocks(d, row, k)
    {
      var percentage := Percentage(rest[k], totalCount);
      var keyArray := seq(rest[k], _ => Entry(row, Keys[k], percentage));
      data := data + keyArray;
    }
  }

  // ---------------------------------------------------------------
  // Properties

  /** There is one square per touch, and square `i` is bound to the entry
      of the key whose block holds `i`: the defense squares first, then
      the middle ones, then the attack ones. */
  lemma ExpansionAt(d: Touches, row: nat, i: nat)
    requires i < Total(d)
    ensures |Expansion(d, row)| == Total(d)
    ensures Expansion(d, row)[i] == Square(d, row, BlockOf(d, i))
  {
    var b1 := Blocks(d, row, 1);
    var b2 := Blocks(d, row, 2);
    assert b1 == [] + seq(d.defense, _ => Square(d, row, 0));
    assert b2 == b1 + seq(d.middle, _ => Square(d, row, 1));
    assert Expansion(d, row) == b2 + seq(d.attack, _ => Square(d, row, 2));
  }

  /** The blocks come in key order: a later square never belongs to an
      earlier key. */
  lemma ExpansionOrdered(d: Touches, row: nat, i: nat, j: nat)
    requires i <= j < Total(d)
    ensures IndexOf(Keys, Expansion(d, row)[i].key) <= IndexOf(Keys, Expansion(d, row)[j].key)
  {
    ExpansionAt(d, row, i);
    ExpansionAt(d, row, j);
    KeyIndex(BlockOf(d, i));
    KeyIndex(BlockOf(d, j));
  }

  lemma KeyIndex(k: nat)
    requires k < |Keys|
    ensures IndexOf(Keys, Keys[k]) == k
  {
  }

  /** Each key labels exactly as many squares as its count. */
  lemma ExpansionCounts(d: Touches, row: nat, k: nat)
    requires k < |Keys|
    ensures Occurrences(Expansion(d, row), Keys[k]) == Counts(d)[k]
  {
    var b1 := Blocks(d, row, 1);
    var b2 := Blocks(d, row, 2);
    assert b1 == [] + seq(d.defense, _ => Square(d, row, 0));
    assert b2 == b1 + seq(d.middle, _ => Square(d, row, 1));
    OccurrencesAppend(b1, seq(d.middle, _ => Square(d, row, 1)), Keys[k]);
    OccurrencesAppend(b2, seq(d.attack, _ => Square(d, row, 2)), Keys[k]);
    OccurrencesConst(d.defense, Square(d, row, 0), Keys[k]);
    OccurrencesConst(d.middle, Square(d, row, 1), Keys[k]);
    OccurrencesConst(d.attack, Square(d, row, 2), Keys[k]);
    assert [] + seq(d.defense, _ => Square(d, row, 0)) == seq(d.defense, _ => Square(d, row, 0));
  }

  lemma {:induction false} OccurrencesAppend(a: seq<Entry>, b: seq<Entry>, name: string)
    ensures Occurrences(a + b, name) == Occurrences(a, name) + Occurrences(b, name)
  {
    if a != [] {
      assert (a + b)[1..] == a[1..] + b;
      OccurrencesAppend(a[1..], b, name);
    } else {
      assert a + b == b;
    }
  }

  lemma {:induction false} OccurrencesConst(n: nat, e: Entry, name: string)
    ensures Occurrences(seq(n, _ => e), name) == if e.key == name then n else 0
  {
    if n > 0 {
      assert seq(n, _ => e)[1..] == seq(n - 1, _ => e);
      OccurrencesConst(n - 1, e, name);
    }
  }

  /** Every square is filled with the colour of its key, the legend
      square of each key too, and the three keys get three different
      colours. */
  lemma FillSpec(d: Touches, row: nat, i: nat, k: nat)
    requires i < Total(d) && k < |Keys|
    ensures Fill(Expansion(d, row)[i].key) == Some(Colors[BlockOf(d, i)])
    ensures Fill(Keys[k]) == Some(Colors[k])
    ensures forall a, b :: 0 <= a < b < |Colors| ==> Colors[a] != Colors[b]
  {
    ExpansionAt(d, row, i);
    KeyIndex(BlockOf(d, i));
    KeyIndex(k);
  }

  /** The percentages of the three keys add up to 100 for a country with
      any touches. */
  lemma PercentagesSum(d: Touches)
    requires Total(d) > 0
    ensures Percentage(d.defense, Total(d)) + Percentage(d.middle, Total(d)) + Percentage(d.attack, Total(d)) == 100.0
  {
    DivSum(d.defense as real, d.middle as real, d.attack as real, Total(d) as real);
  }

  /** Three shares of a positive whole, as percentages, add up to 100. */
  lemma DivSum(a: real, b: real, c: real, t: real)
    requires t > 0.0 && a + b + c == t
    ensures a / t * 100.0 + b / t * 100.0 + c / t * 100.0 == 100.0
  {
    var x, y, z := a / t, b / t, c / t;
    assert x * t == a && y * t == b && z * t == c;
    assert (x + y + z) * t == x * t + y * t + z * t;
    assert x + y + z == 1.0;
  }

  /** The grid has ten rows; squares go down a column and then on to the
      top of the next; no two squares share a cell, every square lies
      within the chart's height, and the squares (`boxSize - boxGap`
      wide) never overlap. */
  lemma GridSpec(i: nat, j: nat)
    ensures HowManyAcross == 10
    ensures 0 <= Y(i) && Y(i) + BoxSize - BoxGap <= Height
    ensures i % HowManyAcross < HowManyAcross - 1 ==> X(i + 1) == X(i) && Y(i + 1) == Y(i) + BoxSize
    ensures i % HowManyAcross == HowManyAcross - 1 ==> X(i + 1) == X(i) + BoxSize && Y(i + 1) == 0
    ensures i != j ==> X(i) != X(j) || Y(i) != Y(j)
    ensures i != j ==> X(i) - X(j) >= BoxSize || X(j) - X(i) >= BoxSize || Y(i) - Y(j) >= BoxSize || Y(j) - Y(i) >= BoxSize
  {
    assert HowManyAcross == 10;
    var qi, ri := i / 10, i % 10;
    var qj, rj := j / 10, j % 10;
    assert i == 10 * qi + ri && j == 10 * qj + rj;
    if ri < 9 {
      assert (i + 1) / 10 == qi && (i + 1) % 10 == ri + 1;
    } else {
      assert (i + 1) / 10 == qi + 1 && (i + 1) % 10 == 0;
    }
    if i != j {
      assert qi != qj || ri != rj;
    }
  }

  /** Every country of the chart has 200 touches, so 20 full columns, and
      its squares stay to the left of the legend drawn at `width - 50`. */
  lemma DataFits(r: nat, i: nat)
    requires r < |Data| && i < Total(Data[r])
    ensures Total(Data[r]) == 200
    ensures X(i) + BoxSize - BoxGap < Width - 50
  {
    assert Total(Data[r]) == 200;
    assert i / 10 <= 19;
  }
}
