/**
 * The calcer base classes (competition/featurise/base.py): the key columns every
 * calcer output carries, and `GeoBaseCalcer.prepare_data`, which turns the `geo`
 * table of populated places into at most one place per grid cell, the most
 * populous one.
 */
module FeaturiseBase {
  import opened Wrappers
  import opened Tables
  import opened Grid
  import opened Warehouse
  import opened Registry

  /** A keyword argument handed to a calcer's constructor. */
  datatype Arg = EngineArg(engine: Engine<Table>) | Setting(value: Value)

  /** A keyword-argument dictionary; callers share it and `create_calcer` writes into it. */
  class Args {
    var entries: map<string, Arg>

    constructor (entries: map<string, Arg>)
      ensures this.entries == entries
    {
      this.entries := entries;
    }
  }

  /** A constructed calcer: its class and the keyword arguments it was built with. */
  datatype Calcer = Calcer(cls: ClassInfo, args: map<string, Arg>)

  /** `CalcerBase.keys`: the merge key of every calcer output. */
  const KeyColumns: seq<string> := ["dt", "grid_index"]

  /** A key as the two key columns of an output row. */
  function KeyRow(k: Key): (r: Row)
    ensures r.Keys == set c | c in KeyColumns
  {
    map["dt" := Int(k.dt), "grid_index" := Int(k.cell)]
  }

  /** The key an output row carries, if both key columns hold integers. */
  function KeyOf(row: Row): Option<Key> {
    if "dt" in row && "grid_index" in row && row["dt"].Int? && row["grid_index"].Int?
    then Some(Key(row["dt"].i, row["grid_index"].i))
    else None
  }

  /** Key rows and keys are interchangeable: a key survives the trip through its columns. */
  lemma KeyRoundTrip(k: Key, extra: Row)
    requires forall c :: c in extra ==> c !in KeyColumns
    ensures KeyOf(KeyRow(k)) == Some(k)
    ensures KeyOf(extra + KeyRow(k)) == Some(k)
    ensures KeyOf(extra) == None
  {
    assert "dt" in KeyColumns;
    assert "dt" !in extra;
  }

  // ---------------------------------------------------------------- longitude

  /** `geo_df.loc[geo_df['city_lon'] < 0, 'city_lon'] += 360`. */
  function ShiftLongitude(lon: real): real {
    if lon < 0.0 then lon + 360.0 else lon
  }

  /**
   * The shift moves longitudes only by a whole turn, maps the usual range
   * [-180, 180) onto [0, 360) one-to-one, and leaves the eastern hemisphere alone.
   */
  lemma ShiftLongitudeFacts(lon: real, other: real)
    ensures ShiftLongitude(lon) == lon || ShiftLongitude(lon) == lon + 360.0
    ensures 0.0 <= lon ==> ShiftLongitude(lon) == lon
    ensures -180.0 <= lon < 180.0 ==> 0.0 <= ShiftLongitude(lon) < 360.0
    ensures -180.0 <= lon < 180.0 && -180.0 <= other < 180.0 ==>
              (ShiftLongitude(lon) == ShiftLongitude(other) <==> lon == other)
  {
  }

  /**
   * A western-hemisphere place never lands inside the grid's box: after the
   * shift it lies at 180 degrees or more, east of the box's edge at 169.
   */
  lemma ShiftedWestStaysOutsideBox(lon: real, lat: real)
    requires -180.0 <= lon < 0.0
    ensures !InBox(ShiftLongitude(lon), lat)
    ensures InBox(lon + 360.0, lat) == InBox(ShiftLongitude(lon), lat)
  {
  }

  // --------------------------------------------------------------- population

  predicate IsDigit(ch: char) {
    '0' <= ch <= '9'
  }

  /**
   * The characters Python's `int()` skips around a numeral: the six ASCII blanks, and every
   * non-ASCII character `str.isspace` accepts (the ASCII separators U+001C to U+001F are
   * passed through unchanged and then refused).
   */
  predicate IsSpace(ch: char) {
    || ch == ' ' || '\t' <= ch <= '\r'
    || ch == '\U{0085}' || ch == '\U{00A0}' || ch == '\U{1680}'
    || '\U{2000}' <= ch <= '\U{200A}'
    || ch == '\U{2028}' || ch == '\U{2029}' || ch == '\U{202F}' || ch == '\U{205F}' || ch == '\U{3000}'
  }

  /** `x.split('(')[0]`: the text before the first `(`. */
  function BeforeParen(s: string): (r: string)
    ensures r <= s && '(' !in r
    ensures |r| < |s| ==> s[|r|] == '('
  {
    if s == [] then []
    else if s[0] == '(' then []
    else [s[0]] + BeforeParen(s[1..])
  }

  /** `.str.replace(" ", "")`. */
  function RemoveSpaces(s: string): (r: string)
    ensures ' ' !in r
    ensures forall ch :: ch in r ==> ch in s
  {
    if s == [] then []
    else (if s[0] == ' ' then [] else [s[0]]) + RemoveSpaces(s[1..])
  }

  function StripLeading(s: string): string {
    if s == [] then []
    else if IsSpace(s[0]) then StripLeading(s[1..])
    else s
  }

  function StripTrailing(s: string): string {
    if s == [] then []
    else if IsSpace(s[|s| - 1]) then StripTrailing(s[..|s| - 1])
    else s
  }

  /** Digits with single underscores between them, as a base-10 `int()` literal allows. */
  predicate Grouped(s: string) {
    && |s| > 0 && IsDigit(s[0]) && IsDigit(s[|s| - 1])
    && (forall i :: 0 <= i < |s| ==> IsDigit(s[i]) || s[i] == '_')
    && (forall i :: 0 <= i < |s| - 1 ==> s[i] == '_' ==> s[i + 1] != '_')
  }

  /** The number the digits of `s` spell, underscores skipped. */
  function DigitsValue(s: string): nat
    decreases |s|
  {
    if s == [] then 0
    else if IsDigit(s[|s| - 1]) then DigitsValue(s[..|s| - 1]) * 10 + (s[|s| - 1] as int - '0' as int)
    else DigitsValue(s[..|s| - 1])
  }

  /** Python's `int(s)`: blanks around, an optional sign, grouped ASCII digits. */
  function ParseInt(s: string): (r: Result<int, Exception>)
    ensures r.Failure? ==> r.error == ValueError(s)
  {
    var t := StripTrailing(StripLeading(s));
    if |t| > 0 && (t[0] == '-' || t[0] == '+') then
      if Grouped(t[1..]) then Success(if t[0] == '-' then -(DigitsValue(t[1..]) as int) else DigitsValue(t[1..]))
      else Failure(ValueError(s))
    else if Grouped(t) then Success(DigitsValue(t))
    else Failure(ValueError(s))
  }

  /** The range of numpy's `int64`, the dtype `astype(int)` casts to. */
  const Int64Min: int := -0x8000_0000_0000_0000
  const Int64Max: int := 0x7FFF_FFFF_FFFF_FFFF

  /** What storing a Python integer outside that range raises. */
  const IntTooLarge: string := "Python int too large to convert to C long"

  /** Storing an integer into an `int64` slot: the value itself, or OverflowError outside the range. */
  function ToInt64(n: int): (r: Result<int, Exception>)
    ensures r.Success? <==> Int64Min <= n <= Int64Max
    ensures r.Success? ==> r.value == n
    ensures r.Failure? ==> r.error == OverflowError(IntTooLarge)
  {
    if Int64Min <= n <= Int64Max then Success(n) else Failure(OverflowError(IntTooLarge))
  }

  /** `astype(int)` of one text cell: `int()` of the text, then the `int64` store. */
  function CastInt64(s: string): (r: Result<int, Exception>)
    ensures r.Success? <==> ParseInt(s).Success? && Int64Min <= ParseInt(s).value <= Int64Max
    ensures r.Success? ==> r == ParseInt(s)
    ensures ParseInt(s).Failure? ==> r == Failure(ValueError(s))
    ensures ParseInt(s).Success? && r.Failure? ==> r.error == OverflowError(IntTooLarge)
  {
    var n :- ParseInt(s);
    ToInt64(n)
  }

  /**
   * The population of one non-null cell: the text before `(`, spaces deleted, cast to
   * `int64`. Text that is no integer raises ValueError, an integer outside the range
   * OverflowError.
   */
  function ParsePopulation(s: string): (r: Result<int, Exception>)
    ensures r.Success? ==> Int64Min <= r.value <= Int64Max
    ensures r.Success? ==> ParseInt(RemoveSpaces(BeforeParen(s))) == r
    ensures r.Failure? ==> r.error == ValueError(RemoveSpaces(BeforeParen(s))) || r.error == OverflowError(IntTooLarge)
  {
    CastInt64(RemoveSpaces(BeforeParen(s)))
  }

  /** The decimal numeral of `n`, the inverse direction of `ParseInt`. */
  function Decimal(n: nat): (r: string)
    decreases n
  {
    if n < 10 then [('0' as int + n) as char]
    else Decimal(n / 10) + [('0' as int + n % 10) as char]
  }

  lemma {:induction false} DecimalFacts(n: nat)
    ensures |Decimal(n)| > 0
    ensures forall i :: 0 <= i < |Decimal(n)| ==> IsDigit(Decimal(n)[i])
    ensures DigitsValue(Decimal(n)) == n
    decreases n
  {
    var d := Decimal(n);
    if n >= 10 {
      DecimalFacts(n / 10);
      assert d[..|d| - 1] == Decimal(n / 10);
    }
  }

  /** `int()` reads back every decimal numeral, with or without a minus sign. */
  lemma ParseIntDecimal(n: nat)
    ensures ParseInt(Decimal(n)) == Success(n)
    ensures ParseInt("-" + Decimal(n)) == Success(-(n as int))
  {
    DecimalFacts(n);
    var d := Decimal(n);
    NoSpaceUnstripped(d);
    assert Grouped(d);
    var m := "-" + d;
    assert m[1..] == d;
    NoSpaceUnstripped(m);
  }

  lemma NoSpaceUnstripped(s: string)
    requires |s| > 0 && !IsSpace(s[0]) && !IsSpace(s[|s| - 1])
    ensures StripTrailing(StripLeading(s)) == s
  {
  }

  /** A no-break space around a numeral is stripped; an ASCII file separator is not. */
  lemma UnicodeBlanks()
    ensures ParseInt("\U{00A0}12\U{3000}") == Success(12)
    ensures ParseInt("\U{001C}12") == Failure(ValueError("\U{001C}12"))
  {
    var t := "\U{00A0}12\U{3000}";
    assert StripLeading(t) == t[1..];
    assert StripTrailing(t[1..]) == "12";
    assert DigitsValue("12") == 12 by {
      assert "12"[..1] == "1";
    }
    var u := "\U{001C}12";
    NoSpaceUnstripped(u);
  }

  /** A numeral followed by an annotation in parentheses parses to the numeral's value. */
  lemma AnnotatedPopulation(n: nat, note: string)
    ensures ParsePopulation(Decimal(n) + " (" + note) == ToInt64(n)
  {
    DecimalFacts(n);
    var d := Decimal(n);
    var sp, tail := " ", "(" + note;
    assert d + " (" + note == (d + sp) + tail;
    assert '(' !in d + sp by {
      assert forall i :: 0 <= i < |d + sp| ==> (d + sp)[i] != '(';
    }
    BeforeParenAppend(d + sp, tail);
    RemoveSpacesAppend(d, sp);
    RemoveSpacesOfNoSpace(d);
    assert RemoveSpaces(sp) == [];
    assert RemoveSpaces(d + sp) == d;
    ParseIntDecimal(n);
  }

  /** Text without a space or `(` is split off whole before the first `(`. */
  lemma {:induction false} BeforeParenAppend(a: string, b: string)
    requires '(' !in a && |b| > 0 && b[0] == '('
    ensures BeforeParen(a + b) == a
  {
    if a == [] {
      assert a + b == b;
    } else {
      assert (a + b)[1..] == a[1..] + b;
      BeforeParenAppend(a[1..], b);
    }
  }

  lemma {:induction false} RemoveSpacesAppend(a: string, b: string)
    ensures RemoveSpaces(a + b) == RemoveSpaces(a) + RemoveSpaces(b)
  {
    if a == [] {
      assert a + b == b;
    } else {
      assert (a + b)[1..] == a[1..] + b;
      RemoveSpacesAppend(a[1..], b);
    }
  }

  lemma {:induction false} RemoveSpacesOfNoSpace(s: string)
    requires forall i :: 0 <= i < |s| ==> s[i] != ' '
    ensures RemoveSpaces(s) == s
  {
    if s != [] {
      RemoveSpacesOfNoSpace(s[1..]);
    }
  }

  /** Everything from the first `(` on is ignored. */
  lemma PopulationBeforeParen(head: string, tail: string)
    requires '(' !in head && |tail| > 0 && tail[0] == '('
    ensures ParsePopulation(head + tail) == CastInt64(RemoveSpaces(head))
  {
    BeforeParenAppend(head, tail);
  }

  /** Spaces between digit groups are deleted before the groups are read as one numeral. */
  lemma SpacedGroups(d: string, b: string, note: string)
    requires forall i :: 0 <= i < |d| ==> IsDigit(d[i])
    requires forall i :: 0 <= i < |b| ==> IsDigit(b[i])
    ensures ParsePopulation(d + " " + b + " (" + note) == CastInt64(d + b)
  {
    var head, tail := d + " " + b + " ", "(" + note;
    assert d + " " + b + " (" + note == head + tail;
    SpacedDigits(d, b);
    PopulationBeforeParen(head, tail);
  }

  /** Two digit groups with a space after each: no `(`, and deleting spaces joins them. */
  lemma SpacedDigits(d: string, b: string)
    requires forall i :: 0 <= i < |d| ==> IsDigit(d[i])
    requires forall i :: 0 <= i < |b| ==> IsDigit(b[i])
    ensures '(' !in d + " " + b + " "
    ensures RemoveSpaces(d + " " + b + " ") == d + b
  {
    var sp := " ";
    DigitsOnly(d);
    DigitsOnly(b);
    assert RemoveSpaces(sp) == [];
    RemoveSpacesAppend(d, sp);
    assert RemoveSpaces(d + sp) == d;
    RemoveSpacesAppend(d + sp, b);
    assert RemoveSpaces(d + sp + b) == d + b;
    RemoveSpacesAppend(d + sp + b, sp);
  }

  /** Digits hold neither a space nor a `(`, and deleting spaces keeps them. */
  lemma DigitsOnly(d: string)
    requires forall i :: 0 <= i < |d| ==> IsDigit(d[i])
    ensures ' ' !in d && '(' !in d
    ensures RemoveSpaces(d) == d
  {
    RemoveSpacesOfNoSpace(d);
  }



  lemma DigitsValueAppend(x: string, ch: char)
    requires IsDigit(ch)
    ensures DigitsValue(x + [ch]) == DigitsValue(x) * 10 + (ch as int - '0' as int)
  {
    assert (x + [ch])[..|x|] == x;
  }

  /** A plain run of digits is read as the number it spells. */
  lemma ParseIntDigits(x: string)
    requires |x| > 0 && forall i :: 0 <= i < |x| ==> IsDigit(x[i])
    ensures ParseInt(x) == Success(DigitsValue(x))
  {
    NoSpaceUnstripped(x);
  }

  /** Three more digits after a numeral multiply its value by a thousand. */
  lemma ThousandsValue(a: nat, b: string)
    requires |b| == 3 && forall i :: 0 <= i < 3 ==> IsDigit(b[i])
    ensures ParseInt(Decimal(a) + b) == Success(a * 1000 + DigitsValue(b))
  {
    DecimalFacts(a);
    var d := Decimal(a);
    assert DigitsValue(d + b) == a * 1000 + DigitsValue(b) by {
      ThreeDigitsValue(d, b);
    }
    ParseIntDigits(d + b);
  }

  lemma ThreeDigitsValue(d: string, b: string)
    requires |b| == 3 && forall i :: 0 <= i < 3 ==> IsDigit(b[i])
    ensures DigitsValue(d + b) == DigitsValue(d) * 1000 + DigitsValue(b)
  {
    var v0, v1, v2 := b[0] as int - '0' as int, b[1] as int - '0' as int, b[2] as int - '0' as int;
    var a := DigitsValue(d);
    DigitsValueAppend(d, b[0]);
    DigitsValueAppend(d + [b[0]], b[1]);
    DigitsValueAppend(d + [b[0]] + [b[1]], b[2]);
    assert d + b == d + [b[0]] + [b[1]] + [b[2]];
    DigitsValueAppend([], b[0]);
    DigitsValueAppend([b[0]], b[1]);
    DigitsValueAppend([b[0]] + [b[1]], b[2]);
    assert b == [] + [b[0]] + [b[1]] + [b[2]];
    assert ((a * 10 + v0) * 10 + v1) * 10 + v2 == a * 1000 + ((v0 * 10 + v1) * 10 + v2);
  }

  /** `1 234 (2010)` style text: thousands separated by a space, then a note, gives 1234. */
  lemma SpacedThousands(a: nat, b: string, note: string)
    requires |b| == 3 && forall i :: 0 <= i < 3 ==> IsDigit(b[i])
    ensures ParsePopulation(Decimal(a) + " " + b + " (" + note) == ToInt64(a * 1000 + DigitsValue(b))
  {
    DecimalFacts(a);
    SpacedGroups(Decimal(a), b, note);
    ThousandsValue(a, b);
  }

  /** Annotation-only or empty text is not a number: `int('')` raises ValueError. */
  lemma NoDigitsFails(note: string)
    ensures ParsePopulation("(" + note).Failure?
    ensures ParsePopulation("") == Failure(ValueError(""))
  {
  }

  /** A numeral past `int64`'s largest value is read by `int()` but refused by the cast. */
  lemma PopulationOverflow(n: nat, note: string)
    ensures ParsePopulation(Decimal(n) + " (" + note).Success? <==> n <= Int64Max
    ensures n > Int64Max ==> ParsePopulation(Decimal(n) + " (" + note) == Failure(OverflowError(IntTooLarge))
  {
    AnnotatedPopulation(n, note);
  }

  // ------------------------------------------------------------ one per cell

  /** A row of the prepared table: `population`, `place`, `city_lon`, `city_lat`, `grid_index`. */
  datatype Place = Place(population: Option<int>, place: Value, lon: real, lat: real, cell: int)

  /**
   * `a` may precede `b` in `sort_values('population', ascending=False)`:
   * larger first, a missing population after every present one.
   */
  predicate PopGe(a: Option<int>, b: Option<int>) {
    b.None? || (a.Some? && a.value >= b.value)
  }

  predicate SortedDesc(s: seq<Place>) {
    forall i, j :: 0 <= i < j < |s| ==> PopGe(s[i].population, s[j].population)
  }

  function Insert(x: Place, s: seq<Place>): (r: seq<Place>)
    requires SortedDesc(s)
    ensures SortedDesc(r) && multiset(r) == multiset(s) + multiset{x}
  {
    if s == [] then [x]
    else if PopGe(x.population, s[0].population) then [x] + s
    else
      var t := Insert(x, s[1..]);
      InsertBehind(x, s, t);
      [s[0]] + t
  }

  /** A place that may not precede the head of a sorted list goes somewhere behind it. */
  lemma InsertBehind(x: Place, s: seq<Place>, t: seq<Place>)
    requires s != [] && SortedDesc(s) && !PopGe(x.population, s[0].population)
    requires SortedDesc(t) && multiset(t) == multiset(s[1..]) + multiset{x}
    ensures SortedDesc([s[0]] + t) && multiset([s[0]] + t) == multiset(s) + multiset{x}
  {
    assert s == [s[0]] + s[1..];
    forall p | p in multiset(t)
      ensures PopGe(s[0].population, p.population)
    {
      if p != x {
        assert p in s[1..];
      }
    }
    ConsSorted(s[0], t);
  }

  lemma ConsSorted(h: Place, t: seq<Place>)
    requires SortedDesc(t) && forall p :: p in multiset(t) ==> PopGe(h.population, p.population)
    ensures SortedDesc([h] + t)
  {
    var r := [h] + t;
    forall i, j | 0 <= i < j < |r|
      ensures PopGe(r[i].population, r[j].population)
    {
      if i == 0 {
        assert r[j] == t[j - 1] && r[j] in multiset(t);
      } else {
        assert r[i] == t[i - 1] && r[j] == t[j - 1];
      }
    }
  }

  /**
   * One admissible outcome of the descending population sort. pandas' default sort is
   * not stable, so the lemmas below hold for every sorted arrangement, not just this one.
   */
  function SortByPopulation(s: seq<Place>): (r: seq<Place>)
    ensures SortedDesc(r) && multiset(r) == multiset(s)
  {
    if s == [] then []
    else
      assert s == [s[0]] + s[1..];
      Insert(s[0], SortByPopulation(s[1..]))
  }

  /** `drop_duplicates(subset=['grid_index'], keep='first')`, with the cells already taken in `seen`. */
  function DedupFrom(s: seq<Place>, seen: set<int>): (r: seq<Place>)
    ensures |r| <= |s|
    ensures forall p :: p in r ==> p in s && p.cell !in seen
  {
    if s == [] then []
    else if s[0].cell in seen then DedupFrom(s[1..], seen)
    else [s[0]] + DedupFrom(s[1..], seen + {s[0].cell})
  }

  function DropDuplicateCells(s: seq<Place>): seq<Place> {
    DedupFrom(s, {})
  }

  predicate UniqueCells(s: seq<Place>) {
    forall i, j :: 0 <= i < j < |s| ==> s[i].cell != s[j].cell
  }

  /** The element `s[i]` is the first of `s` in its cell. */
  predicate FirstInCell(s: seq<Place>, i: int)
    requires 0 <= i < |s|
  {
    forall h :: 0 <= h < i ==> s[h].cell != s[i].cell
  }

  /** `x` occurs in `s` with no earlier element of its cell. */
  predicate FirstOfItsCell(s: seq<Place>, x: Place) {
    exists i :: 0 <= i < |s| && s[i] == x && FirstInCell(s, i)
  }

  predicate HasCell(s: seq<Place>, cell: int) {
    exists j :: 0 <= j < |s| && s[j].cell == cell
  }

  /** What `keep='first'` keeps: new cells only, each at most once, each the first of its cell. */
  lemma {:induction false} DedupFromKeeps(s: seq<Place>, seen: set<int>)
    ensures var r := DedupFrom(s, seen);
      && UniqueCells(r)
      && (forall j :: 0 <= j < |r| ==> r[j].cell !in seen)
      && (forall j :: 0 <= j < |r| ==> FirstOfItsCell(s, r[j]))
  {
    if s != [] {
      var r := DedupFrom(s, seen);
      if s[0].cell in seen {
        DedupFromKeeps(s[1..], seen);
        forall j | 0 <= j < |r| ensures FirstOfItsCell(s, r[j]) {
          var i :| 0 <= i < |s[1..]| && s[1..][i] == r[j] && FirstInCell(s[1..], i);
          assert s[i + 1] == r[j] && FirstInCell(s, i + 1);
        }
      } else {
        var rest := DedupFrom(s[1..], seen + {s[0].cell});
        DedupFromKeeps(s[1..], seen + {s[0].cell});
        assert r == [s[0]] + rest;
        assert FirstInCell(s, 0);
        forall j | 0 <= j < |r| ensures FirstOfItsCell(s, r[j]) {
          if j > 0 {
            var i :| 0 <= i < |s[1..]| && s[1..][i] == rest[j - 1] && FirstInCell(s[1..], i);
            assert s[i + 1] == r[j] && FirstInCell(s, i + 1);
          }
        }
      }
    }
  }

  /** `keep='first'` drops no cell: every cell not already taken appears in the result. */
  lemma {:induction false} DedupFromCovers(s: seq<Place>, seen: set<int>)
    ensures forall x :: x in s && x.cell !in seen ==> HasCell(DedupFrom(s, seen), x.cell)
  {
    if s != [] {
      var r := DedupFrom(s, seen);
      if s[0].cell in seen {
        DedupFromCovers(s[1..], seen);
        forall x | x in s && x.cell !in seen ensures HasCell(r, x.cell) {
          assert x in s[1..];
        }
      } else {
        var rest := DedupFrom(s[1..], seen + {s[0].cell});
        DedupFromCovers(s[1..], seen + {s[0].cell});
        assert r == [s[0]] + rest;
        forall x | x in s && x.cell !in seen ensures HasCell(r, x.cell) {
          if x.cell == s[0].cell {
            assert r[0].cell == x.cell;
          } else {
            assert x in s[1..];
            var j :| 0 <= j < |rest| && rest[j].cell == x.cell;
            assert r[j + 1].cell == x.cell;
          }
        }
      }
    }
  }

  /**
   * Sorting by population and keeping the first row per cell, for ANY sorted arrangement
   * of the rows: every cell of the input appears exactly once, the row kept is one of the
   * input's, and no row of the same cell has a larger population (missing ranks lowest).
   */
  lemma MostPopulousPerCell(input: seq<Place>, sorted: seq<Place>)
    requires SortedDesc(sorted) && multiset(sorted) == multiset(input)
    ensures var r := DropDuplicateCells(sorted);
      && UniqueCells(r)
      && (forall j :: 0 <= j < |r| ==> r[j] in input)
      && (forall x :: x in input ==> HasCell(r, x.cell))
      && (forall j, x :: 0 <= j < |r| && x in input && x.cell == r[j].cell ==>
            PopGe(r[j].population, x.population))
  {
    var r := DropDuplicateCells(sorted);
    DedupFromKeeps(sorted, {});
    DedupFromCovers(sorted, {});
    forall j | 0 <= j < |r| ensures r[j] in input {
      assert FirstOfItsCell(sorted, r[j]);
      assert r[j] in multiset(sorted);
    }
    forall x | x in input ensures HasCell(r, x.cell) {
      assert x in multiset(sorted);
    }
    forall j, x | 0 <= j < |r| && x in input && x.cell == r[j].cell
      ensures PopGe(r[j].population, x.population)
    {
      assert x in multiset(sorted);
      KeptDominates(sorted, r[j], x);
    }
  }

  /** In a sorted sequence the first element of a cell ranks at least as high as every other of that cell. */
  lemma KeptDominates(sorted: seq<Place>, kept: Place, x: Place)
    requires SortedDesc(sorted) && FirstOfItsCell(sorted, kept)
    requires x in sorted && x.cell == kept.cell
    ensures PopGe(kept.population, x.population)
  {
    var i :| 0 <= i < |sorted| && sorted[i] == kept && FirstInCell(sorted, i);
    var h :| 0 <= h < |sorted| && sorted[h] == x;
    if i < h {
      assert PopGe(sorted[i].population, sorted[h].population);
    }
  }

  /** `geo_df['place'] != 'city_block'` (a missing place is kept). */
  function DropCityBlocks(s: seq<Place>): (r: seq<Place>)
    ensures forall x :: x in r <==> x in s && x.place != Text("city_block")
  {
    if s == [] then []
    else (if s[0].place == Text("city_block") then [] else [s[0]]) + DropCityBlocks(s[1..])
  }

  /** The expression chain at the end of `prepare_data`: filter, sort, keep first per cell. */
  function OnePerCell(s: seq<Place>): seq<Place> {
    DropDuplicateCells(SortByPopulation(DropCityBlocks(s)))
  }

  /**
   * The prepared table holds no city block, one row per cell, a row for every cell that
   * has a non-block place, and in each cell the most populous of its places.
   */
  lemma OnePerCellFacts(s: seq<Place>)
    ensures var r := OnePerCell(s);
      && UniqueCells(r)
      && (forall j :: 0 <= j < |r| ==> r[j] in s && r[j].place != Text("city_block"))
      && (forall x :: x in s && x.place != Text("city_block") ==> HasCell(r, x.cell))
      && (forall j, x :: 0 <= j < |r| && x in s && x.place != Text("city_block") && x.cell == r[j].cell ==>
            PopGe(r[j].population, x.population))
  {
    MostPopulousPerCell(DropCityBlocks(s), SortByPopulation(DropCityBlocks(s)));
  }

  // ------------------------------------------------------------ prepare_data

  /** The columns `prepare_data` selects from the `geo` table. */
  const GeoColumns: seq<string> := ["population", "place", "geometry"]

  /** The columns the prepared frame has before `set_grid_index` adds `grid_index`. */
  const LocatedColumns: seq<string> := GeoColumns + ["city_lon", "city_lat"]

  /** `geo_df.loc[:, ['population', 'place', 'geometry']]`: a missing column raises KeyError. */
  function Project(t: Table): (r: Result<seq<Row>, Exception>)
    ensures r.Success? <==> forall c :: c in GeoColumns ==> c in t.columns
    ensures r.Failure? ==> r.error.KeyError? && r.error.key in GeoColumns && r.error.key !in t.columns
    ensures r.Success? ==> |r.value| == |t.rows|
    ensures r.Success? ==> forall i :: 0 <= i < |t.rows| ==>
              && r.value[i].Keys == set c | c in GeoColumns
              && forall c :: c in r.value[i] ==> r.value[i][c] == Get(t.rows[i], c)
  {
    if "population" !in t.columns then Failure(KeyError("population"))
    else if "place" !in t.columns then Failure(KeyError("place"))
    else if "geometry" !in t.columns then Failure(KeyError("geometry"))
    else Success(seq(|t.rows|, i requires 0 <= i < |t.rows| =>
                   map c | c in {"population", "place", "geometry"} :: Get(t.rows[i], c)))
  }

  /** `.x` and `.y` of one geometry: a point's coordinates, NaN for a missing geometry. */
  function Coordinates(g: Value): Option<(Value, Value)> {
    match g
    case Point(x, y) => Some((Num(x), Num(y)))
    case Missing => Some((Missing, Missing))
    case _ => None
  }

  /** `geopandas` refuses `.x` on a column holding anything but points. */
  const PointsOnly: string := "x attribute access only provided for Point geometries"

  /** The `city_lon` and `city_lat` column writes. */
  function Locate(rows: seq<Row>): (r: Result<seq<Row>, Exception>)
    ensures r.Success? <==> forall i :: 0 <= i < |rows| ==> Coordinates(Get(rows[i], "geometry")).Some?
    ensures r.Failure? ==> r.error == ValueError(PointsOnly)
    ensures r.Success? ==> |r.value| == |rows| && forall i :: 0 <= i < |rows| ==>
              var xy := Coordinates(Get(rows[i], "geometry")).value;
              r.value[i] == rows[i]["city_lon" := xy.0]["city_lat" := xy.1]
  {
    if forall i :: 0 <= i < |rows| ==> Coordinates(Get(rows[i], "geometry")).Some? then
      Success(seq(|rows|, i requires 0 <= i < |rows| =>
                var xy := Coordinates(Get(rows[i], "geometry")).value;
                rows[i]["city_lon" := xy.0]["city_lat" := xy.1]))
    else Failure(ValueError(PointsOnly))
  }

  /** The shift applied to one row: only a present, negative longitude changes (NaN < 0 is false). */
  function ShiftRow(row: Row): Row {
    match Get(row, "city_lon")
    case Num(lon) => row["city_lon" := Num(ShiftLongitude(lon))]
    case _ => row
  }

  /** Non-null populations must be text: `x.split` raises AttributeError on anything else. */
  predicate Splittable(v: Value) {
    v.Missing? || v.Text?
  }

  /** The population of one row after `astype(int)`; a missing population is left alone. */
  function PopulationCell(v: Value): Result<Value, Exception>
    requires Splittable(v)
  {
    match v
    case Text(s) =>
      var n :- ParsePopulation(s);
      Success(Int(n))
    case Missing => Success(Missing)
  }

  /** One row after the population write: parsed when present, kept when missing. */
  function ParsedRow(row: Row): (r: Result<Row, Exception>)
    requires Splittable(Get(row, "population"))
    ensures r.Success? <==> PopulationCell(Get(row, "population")).Success?
    ensures r.Failure? ==> r.error.ValueError? || r.error.OverflowError?
    ensures r.Success? ==> r.value == if Get(row, "population").Missing? then row
                                      else row["population" := PopulationCell(Get(row, "population")).value]
  {
    var v := Get(row, "population");
    var cell :- PopulationCell(v);
    Success(if v.Missing? then row else row["population" := cell])
  }

  /** `astype(int)` over the masked rows, in order: the first text that is no `int64` raises. */
  function ParseEach(rows: seq<Row>): (r: Result<seq<Row>, Exception>)
    requires forall i :: 0 <= i < |rows| ==> Splittable(Get(rows[i], "population"))
    ensures r.Success? <==> forall i :: 0 <= i < |rows| ==> PopulationCell(Get(rows[i], "population")).Success?
    ensures r.Failure? ==> r.error.ValueError? || r.error.OverflowError?
    ensures r.Success? ==> |r.value| == |rows| && forall i :: 0 <= i < |rows| ==> r.value[i] == ParsedRow(rows[i]).value
  {
    if rows == [] then Success([])
    else
      var row :- ParsedRow(rows[0]);
      var rest :- ParseEach(rows[1..]);
      assert forall i :: 1 <= i < |rows| ==> rows[1..][i - 1] == rows[i];
      Success([row] + rest)
  }

  /** The population column write: AttributeError for a non-text cell comes before any ValueError. */
  function ParsePopulations(rows: seq<Row>): Result<seq<Row>, Exception> {
    if forall i :: 0 <= i < |rows| ==> Splittable(Get(rows[i], "population")) then ParseEach(rows)
    else Failure(AttributeError("split"))
  }

  /** The prepared row of one row of the frame after `set_grid_index`. */
  function PlaceOf(row: Row): Place {
    Place(match Get(row, "population") case Int(n) => Some(n) case _ => None,
          Get(row, "place"),
          AsReal(Get(row, "city_lon")).GetOr(0.0),
          AsReal(Get(row, "city_lat")).GetOr(0.0),
          match Get(row, "grid_index") case Int(n) => n case _ => 0)
  }

  function Places(rows: seq<Row>): (r: seq<Place>)
    ensures |r| == |rows| && forall i :: 0 <= i < |rows| ==> r[i] == PlaceOf(rows[i])
  {
    seq(|rows|, i requires 0 <= i < |rows| => PlaceOf(rows[i]))
  }

  /** What `prepare_data` returns for the `geo` table `t`, step by step as the frame is written. */
  function Prepared(t: Table): (r: Result<seq<Place>, Exception>)
    ensures r.Failure? ==> r.error.KeyError? || r.error.ValueError? || r.error.AttributeError? || r.error.TypeError?
                           || r.error.OverflowError?
  {
    var projected :- Project(t);
    var located :- Locate(projected);
    var parsed :- ParsePopulations(seq(|located|, i requires 0 <= i < |located| => ShiftRow(located[i])));
    match GridIndexError(LocatedColumns, parsed, "city_lon", "city_lat")
    case Some(e) => Failure(e)
    case None =>
      Success(OnePerCell(Places(seq(|parsed|, i requires 0 <= i < |parsed| =>
        parsed[i]["grid_index" := Int(RowCell(parsed[i], "city_lon", "city_lat"))]))))
  }

  /**
   * `GeoBaseCalcer.prepare_data`: reads the `geo` table from the engine, writes the
   * coordinate, longitude and population columns of its own frame, lets `set_grid_index`
   * add the cell ids, and ends in the filter, sort and first-per-cell chain.
   */
  method PrepareData(engine: Engine<Table>) returns (r: Result<seq<Place>, Exception>)
    ensures "geo" !in engine.tables ==> r == Failure(KeyError("geo"))
    ensures "geo" in engine.tables ==> r == Prepared(engine.tables["geo"])
  {
    var t :- engine.GetTable("geo");
    var projected :- Project(t);
    var geo := new DataFrame(GeoColumns, projected);
    var located :- Locate(geo.rows);
    geo.columns := geo.columns + ["city_lon", "city_lat"];
    geo.rows := located;
    var shifted := seq(|located|, i requires 0 <= i < |located| => ShiftRow(located[i]));
    geo.rows := shifted;
    var parsed :- ParsePopulations(geo.rows);
    geo.rows := parsed;
    assert geo.columns == LocatedColumns;
    var raised := SetGridIndex(geo, "city_lon", "city_lat");
    if raised.Some? {
      return Failure(raised.value);
    }
    ghost var gridded := seq(|parsed|, i requires 0 <= i < |parsed| =>
      parsed[i]["grid_index" := Int(RowCell(parsed[i], "city_lon", "city_lat"))]);
    assert geo.rows == gridded;
    r := Success(OnePerCell(Places(geo.rows)));
  }

  // ------------------------------------------------- the same, row by row

  /** An input row `prepare_data` accepts: a point geometry and a missing or readable population. */
  predicate ValidInput(row: Row) {
    && Get(row, "geometry").Point?
    && match Get(row, "population")
       case Missing => true
       case Text(s) => ParsePopulation(s).Success?
       case _ => false
  }

  /** The prepared row one accepted input row becomes, computed directly from that row. */
  function PlaceOfInput(row: Row): Place
    requires ValidInput(row)
  {
    var g := Get(row, "geometry");
    var lon := ShiftLongitude(g.x);
    Place(match Get(row, "population") case Text(s) => Some(ParsePopulation(s).value) case _ => None,
          Get(row, "place"), lon, g.y, CellId(lon, g.y))
  }

  predicate Accepted(t: Table) {
    && (forall c :: c in GeoColumns ==> c in t.columns)
    && (forall i :: 0 <= i < |t.rows| ==> ValidInput(t.rows[i]))
  }

  function InputPlaces(t: Table): (r: seq<Place>)
    requires Accepted(t)
    ensures |r| == |t.rows| && forall i :: 0 <= i < |t.rows| ==> r[i] == PlaceOfInput(t.rows[i])
  {
    seq(|t.rows|, i requires 0 <= i < |t.rows| => PlaceOfInput(t.rows[i]))
  }

  /** The projected row of `orig`: the three selected columns carry the same values. */
  predicate SameSelected(p: Row, orig: Row) {
    forall c :: c in GeoColumns ==> Get(p, c) == Get(orig, c)
  }

  /** One accepted row through the column writes, `set_grid_index` and `PlaceOf`. */
  lemma RowThrough(orig: Row, p: Row)
    requires ValidInput(orig) && SameSelected(p, orig)
    ensures var xy := Coordinates(Get(p, "geometry")).value;
      var sh := ShiftRow(p["city_lon" := xy.0]["city_lat" := xy.1]);
      var v := Get(sh, "population");
      && Splittable(v) && PopulationCell(v).Success?
      && var q := if v.Missing? then sh else sh["population" := PopulationCell(v).value];
      && AsReal(Get(q, "city_lon")).Some? && AsReal(Get(q, "city_lat")).Some?
      && PlaceOf(q["grid_index" := Int(RowCell(q, "city_lon", "city_lat"))]) == PlaceOfInput(orig)
  {
    assert "geometry" in GeoColumns && "population" in GeoColumns && "place" in GeoColumns;
  }

  /** An accepted table goes through every step of `prepare_data`. */
  lemma PreparedAccepted(t: Table)
    requires Accepted(t)
    ensures Prepared(t) == Success(OnePerCell(InputPlaces(t)))
  {
    var p := Project(t).value;
    forall i | 0 <= i < |p| ensures SameSelected(p[i], t.rows[i]) {
    }
    var l := Locate(p).value;
    var shifted := seq(|l|, i requires 0 <= i < |l| => ShiftRow(l[i]));
    forall i | 0 <= i < |p| ensures Splittable(Get(shifted[i], "population")) && PopulationCell(Get(shifted[i], "population")).Success? {
      RowThrough(t.rows[i], p[i]);
    }
    var q := ParsePopulations(shifted).value;
    forall i | 0 <= i < |q|
      ensures AsReal(Get(q[i], "city_lon")).Some? && AsReal(Get(q[i], "city_lat")).Some?
      ensures PlaceOf(q[i]["grid_index" := Int(RowCell(q[i], "city_lon", "city_lat"))]) == PlaceOfInput(t.rows[i])
    {
      RowThrough(t.rows[i], p[i]);
    }
    assert Locatable(LocatedColumns, q, "city_lon", "city_lat");
    var gridded := seq(|q|, i requires 0 <= i < |q| =>
      q[i]["grid_index" := Int(RowCell(q[i], "city_lon", "city_lat"))]);
    assert Places(gridded) == InputPlaces(t);
  }

  /** A table with a missing column or a row that is not accepted makes `prepare_data` raise. */
  lemma PreparedRejected(t: Table)
    requires !Accepted(t)
    ensures Prepared(t).Failure?
  {
    if Project(t).Success? {
      var p := Project(t).value;
      if Locate(p).Success? {
        var l := Locate(p).value;
        var shifted := seq(|l|, i requires 0 <= i < |l| => ShiftRow(l[i]));
        if ParsePopulations(shifted).Success? {
          var q := ParsePopulations(shifted).value;
          var i :| 0 <= i < |t.rows| && !ValidInput(t.rows[i]);
          MissingGeometryRow(t, p, l, shifted, q, i);
        }
      }
    }
  }

  /** The only rejected row that gets past the population step has no geometry, so no coordinates. */
  lemma MissingGeometryRow(t: Table, p: seq<Row>, l: seq<Row>, shifted: seq<Row>, q: seq<Row>, i: int)
    requires Project(t) == Success(p) && Locate(p) == Success(l)
    requires shifted == seq(|l|, i requires 0 <= i < |l| => ShiftRow(l[i]))
    requires ParsePopulations(shifted) == Success(q)
    requires 0 <= i < |t.rows| && !ValidInput(t.rows[i])
    ensures !Locatable(LocatedColumns, q, "city_lon", "city_lat")
  {
    assert SameSelected(p[i], t.rows[i]);
    assert "geometry" in GeoColumns && "population" in GeoColumns;
    assert Get(shifted[i], "population") == Get(t.rows[i], "population");
    assert PopulationCell(Get(shifted[i], "population")).Success?;
    assert Get(t.rows[i], "geometry").Missing?;
    assert Get(q[i], "city_lon") == Missing;
  }

  /**
   * The column-by-column writes of `prepare_data` agree with the row-by-row reading: the
   * call succeeds exactly when the three columns exist and every row is accepted, and then
   * it returns the first-per-cell chain over the rows' own prepared places.
   */
  lemma PreparedRowWise(t: Table)
    ensures Prepared(t).Success? <==> Accepted(t)
    ensures Accepted(t) ==> Prepared(t) == Success(OnePerCell(InputPlaces(t)))
  {
    if Accepted(t) {
      PreparedAccepted(t);
    } else {
      PreparedRejected(t);
    }
  }

  /**
   * What `prepare_data` promises about its result, for every accepted `geo` table: one row
   * per cell; each row is an input place that is not a city block, with its longitude
   * shifted and its cell computed from its own coordinates; every cell of a non-block place
   * is present; and no place of a cell is more populous than the one kept for it.
   */
  lemma PreparedFacts(t: Table)
    requires Accepted(t)
    ensures Prepared(t).Success?
    ensures var r := Prepared(t).value; var input := InputPlaces(t);
      && UniqueCells(r)
      && (forall j :: 0 <= j < |r| ==> r[j] in input && r[j].place != Text("city_block"))
      && (forall j :: 0 <= j < |r| ==> r[j].cell == CellId(r[j].lon, r[j].lat))
      && (forall x :: x in input && x.place != Text("city_block") ==> HasCell(r, x.cell))
      && (forall j, x :: 0 <= j < |r| && x in input && x.place != Text("city_block") && x.cell == r[j].cell ==>
            PopGe(r[j].population, x.population))
  {
    PreparedRowWise(t);
    OnePerCellFacts(InputPlaces(t));
  }
}
