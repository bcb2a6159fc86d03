/** The per-layer tally: how many packets of each type a network layer saw, with
    their sizes, rendered as a table and as Markdown. */
module Layers {
  import opened Wrappers

  /** The bucket that takes every packet whose type is not a main type of the layer. */
  const OTHER: string := "Other"

  // ---------------------------------------------------------------------------
  // Totals over a set of keys
  // ---------------------------------------------------------------------------

  /** Some element of a non-empty set; the same one every time for the same set. */
  ghost function AnyOf(keys: set<string>): (k: string)
    requires keys != {}
    ensures k in keys
  {
    var k :| k in keys; k
  }

  /** The sum of `m` over `keys`, in no particular order. */
  ghost function Total(keys: set<string>, m: map<string, int>): int
    requires keys <= m.Keys
    decreases keys
  {
    if keys == {} then 0
    else
      var k := AnyOf(keys);
      m[k] + Total(keys - {k}, m)
  }

  /** The sum does not depend on the key taken first. */
  lemma {:induction false} TotalRemove(keys: set<string>, m: map<string, int>, k: string)
    requires keys <= m.Keys && k in keys
    ensures Total(keys, m) == m[k] + Total(keys - {k}, m)
    decreases keys
  {
    var j := AnyOf(keys);
    if j != k {
      TotalRemove(keys - {j}, m, k);
      TotalRemove(keys - {k}, m, j);
      assert keys - {j} - {k} == keys - {k} - {j};
    }
  }

  /** Two maps that agree on the keys have the same sum over them. */
  lemma {:induction false} TotalAgree(keys: set<string>, m: map<string, int>, n: map<string, int>)
    requires keys <= m.Keys && keys <= n.Keys
    requires forall k :: k in keys ==> m[k] == n[k]
    ensures Total(keys, m) == Total(keys, n)
    decreases keys
  {
    if keys != {} {
      TotalAgree(keys - {AnyOf(keys)}, m, n);
    }
  }

  /** Changing the value of one key changes the sum by the same amount. */
  lemma TotalUpdate(keys: set<string>, m: map<string, int>, t: string, v: int)
    requires keys <= m.Keys && t in keys
    ensures Total(keys, m[t := v]) == Total(keys, m) - m[t] + v
  {
    TotalRemove(keys, m, t);
    TotalRemove(keys, m[t := v], t);
    TotalAgree(keys - {t}, m, m[t := v]);
  }

  /** Every value is 0, so the sum is 0. */
  lemma {:induction false} TotalOfZeros(keys: set<string>, m: map<string, int>)
    requires keys <= m.Keys
    requires forall k :: k in keys ==> m[k] == 0
    ensures Total(keys, m) == 0
    decreases keys
  {
    if keys != {} {
      TotalOfZeros(keys - {AnyOf(keys)}, m);
    }
  }

  function SumInts(s: seq<int>): int {
    if s == [] then 0 else SumInts(s[..|s| - 1]) + s[|s| - 1]
  }

  /** The bytes recorded in each bucket. */
  function BytesOf(sizes: map<string, seq<int>>): (m: map<string, int>)
    ensures m.Keys == sizes.Keys
  {
    map t | t in sizes :: SumInts(sizes[t])
  }

  /** Every type has a bucket, OTHER among them; each counter is the length of its
      size lists; the packet total is the sum of the counters and the byte total the
      sum of all recorded sizes; the leftover types are not main types. */
  ghost predicate Tallied(keys: set<string>, counter: map<string, int>, sizes: map<string, seq<int>>,
                          headerSizes: map<string, seq<int>>, totalPackets: int, totalBytes: int, others: set<string>)
  {
    && OTHER in keys
    && counter.Keys == keys
    && sizes.Keys == keys
    && headerSizes.Keys == keys
    && (forall t :: t in keys ==> counter[t] == |sizes[t]| == |headerSizes[t]|)
    && totalPackets == Total(keys, counter)
    && totalBytes == TotalBytes(keys, sizes)
    && others !! keys
  }

  /** Recording one more packet in bucket `b` keeps the tally consistent. */
  lemma TalliedAdd(keys: set<string>, counter: map<string, int>, sizes: map<string, seq<int>>,
                   headerSizes: map<string, seq<int>>, totalPackets: int, totalBytes: int, others: set<string>,
                   b: string, size: int, headerSize: int, others': set<string>)
    requires Tallied(keys, counter, sizes, headerSizes, totalPackets, totalBytes, others)
    requires b in keys && others' !! keys
    ensures Tallied(keys, counter[b := counter[b] + 1], sizes[b := sizes[b] + [size]],
                    headerSizes[b := headerSizes[b] + [headerSize]], totalPackets + 1, totalBytes + size, others')
  {
    var c, s, h := counter[b := counter[b] + 1], sizes[b := sizes[b] + [size]], headerSizes[b := headerSizes[b] + [headerSize]];
    assert c.Keys == keys && s.Keys == keys && h.Keys == keys;
    forall x | x in keys
      ensures c[x] == |s[x]| == |h[x]|
    {
      if x == b {
        assert |s[x]| == |sizes[b]| + 1;
      }
    }
    TallyUpdated(keys, counter, sizes, b, size);
  }

  /** The sum of all the sizes listed under `keys`. */
  ghost function TotalBytes(keys: set<string>, sizes: map<string, seq<int>>): int
    requires keys <= sizes.Keys
    decreases keys
  {
    if keys == {} then 0
    else
      var k := AnyOf(keys);
      SumInts(sizes[k]) + TotalBytes(keys - {k}, sizes)
  }

  lemma {:induction false} TotalBytesIsTotal(keys: set<string>, sizes: map<string, seq<int>>)
    requires keys <= sizes.Keys
    ensures TotalBytes(keys, sizes) == Total(keys, BytesOf(sizes))
    decreases keys
  {
    if keys != {} {
      TotalBytesIsTotal(keys - {AnyOf(keys)}, sizes);
    }
  }

  // ---------------------------------------------------------------------------
  // The layer
  // ---------------------------------------------------------------------------

  /** A cell of the table: a name, a whole number, or a percentage. */
  datatype Cell = Text(text: string) | Count(n: int) | Share(percent: real)

  type Row = seq<Cell>

  /** The column heads. */
  const HEADER: Row := [Text(" "), Text("Count"), Text("Percentage"), Text("Bytes")]

  /** `order` lists every key of `keys` exactly once. */
  ghost predicate Enumerates(order: seq<string>, keys: set<string>) {
    && (forall i :: 0 <= i < |order| ==> order[i] in keys)
    && (forall k :: k in keys ==> k in order)
    && (forall i, j :: 0 <= i < j < |order| ==> order[i] != order[j])
  }

  lemma EnumeratesAppend(order: seq<string>, keys: set<string>, t: string)
    requires Enumerates(order, keys) && t !in keys
    ensures Enumerates(order + [t], keys + {t})
  {
  }

  /** The bucket a packet of type `t` is recorded in: its own when it is a main type,
      OTHER when it is not. */
  function BucketIn(keys: set<string>, t: string): (b: string)
    ensures OTHER in keys ==> b in keys
    ensures b == t <==> t in keys || t == OTHER
  {
    if t in keys then t else OTHER
  }

  /** A set of packet types owned by the caller; a layer keeps a reference to it and
      adds the type OTHER to it. */
  class TypeSet {
    var elems: set<string>

    constructor(elems: set<string>)
      ensures this.elems == elems
    {
      this.elems := elems;
    }
  }

  class Layer {
    const name: string
    var totalPackets: int
    var totalBytes: int
    /** Occurrences per type. */
    var counter: map<string, int>
    /** The main types of the layer, shared with the caller. */
    const types: TypeSet
    /** Packet sizes per type, in order of arrival. */
    var sizes: map<string, seq<int>>
    /** Header sizes per type, in order of arrival. */
    var headerSizes: map<string, seq<int>>
    /** The types that went into the OTHER bucket. */
    var others: set<string>

    /** Every type of the layer, OTHER among them, has a counter and a size list. */
    predicate Keyed()
      reads this, types
    {
      OTHER in types.elems && counter.Keys == types.elems && sizes.Keys == types.elems
    }

    ghost predicate Valid()
      reads this, types
      ensures Valid() ==> Keyed()
    {
      Tallied(types.elems, counter, sizes, headerSizes, totalPackets, totalBytes, others)
    }

    /** A fresh layer over the caller's type set, to which OTHER is added; every type
        starts with no occurrences. */
    constructor(name: string, types: TypeSet)
      modifies types
      ensures types.elems == old(types.elems) + {OTHER}
      ensures this.name == name && this.types == types
      ensures totalPackets == 0 && totalBytes == 0 && others == {}
      ensures forall t :: t in types.elems ==>
        t in counter && counter[t] == 0 && t in sizes && sizes[t] == [] && t in headerSizes && headerSizes[t] == []
      ensures Valid()
    {
      this.name := name;
      totalPackets := 0;
      totalBytes := 0;
      counter := map[];
      this.types := types;
      sizes := map[];
      headerSizes := map[];
      others := {};
      new;
      types.elems := types.elems + {OTHER};
      var rest := types.elems;
      var zeros: map<string, int> := map[];
      var empties: map<string, seq<int>> := map[];
      while rest != {}
        invariant rest <= types.elems
        invariant zeros.Keys == empties.Keys == types.elems - rest
        invariant forall t :: t in zeros ==> zeros[t] == 0 && empties[t] == []
        decreases rest
      {
        var t :| t in rest;
        zeros := zeros[t := 0];
        empties := empties[t := []];
        rest := rest - {t};
      }
      counter, sizes, headerSizes := zeros, empties, empties;
      TotalOfZeros(types.elems, counter);
      TotalOfZeros(types.elems, BytesOf(sizes));
      TotalBytesIsTotal(types.elems, sizes);
    }

    /** Records one packet: one more packet and `size` more bytes in all, and the
        packet's sizes appended to the bucket of its type; a type that is not a
        main type goes to OTHER and is remembered. No other bucket changes. */
    method AddPacketOccurrence(packetType: string, size: int, headerSize: int)
      requires Valid()
      modifies this
      ensures Valid()
      ensures totalPackets == old(totalPackets) + 1
      ensures totalBytes == old(totalBytes) + size
      ensures var b := BucketIn(types.elems, packetType);
        && counter == old(counter)[b := old(counter)[b] + 1]
        && sizes == old(sizes)[b := old(sizes)[b] + [size]]
        && headerSizes == old(headerSizes)[b := old(headerSizes)[b] + [headerSize]]
      ensures others == if packetType in types.elems then old(others) else old(others) + {packetType}
    {
      ghost var counter0, sizes0, headerSizes0, others0 := counter, sizes, headerSizes, others;
      var b := BucketIn(types.elems, packetType);
      counter := counter[b := counter[b] + 1];
      sizes := sizes[b := sizes[b] + [size]];
      headerSizes := headerSizes[b := headerSizes[b] + [headerSize]];
      if packetType !in types.elems {
        others := others + {packetType};
      }
      totalPackets := totalPackets + 1;
      totalBytes := totalBytes + size;
      AddedValid(this, counter0, sizes0, headerSizes0, others0, b, size, headerSize);
    }

    /** The table row of type `t`: its name, count, share of all packets in percent
        and bytes. */
    function RowOf(t: string): (row: Row)
      requires t in counter && t in sizes && totalPackets != 0
      reads this
      ensures ShareRow(row, totalPackets as real)
      ensures row[0] == Text(t) && row[1] == Count(counter[t]) && row[3] == Count(SumInts(sizes[t]))
    {
      [Text(t), Count(counter[t]), Share(counter[t] as real / totalPackets as real * 100.0), Count(SumInts(sizes[t]))]
    }

    /** The rows of the types in `order`, one each, in that order. */
    function RowsOf(order: seq<string>): (rows: seq<Row>)
      requires forall t :: t in order ==> t in counter && t in sizes
      requires totalPackets != 0
      reads this
      ensures |rows| == |order| && forall i :: 0 <= i < |order| ==> rows[i] == RowOf(order[i])
    {
      if order == [] then [] else RowsOf(order[..|order| - 1]) + [RowOf(order[|order| - 1])]
    }

    /** `table` is the table of this layer: the header row first, then one row for
        each main type other than OTHER, in some order, and the OTHER row last. */
    ghost predicate IsTable(table: seq<Row>)
      requires Keyed()
      reads this, types
    {
      && totalPackets != 0
      && exists order :: Enumerates(order, types.elems - {OTHER}) && table == [HEADER] + RowsOf(order) + [RowOf(OTHER)]
    }

    /** The table of the layer, its main types in the order the type set yields them;
        when no packet was recorded the percentage divides by zero. */
    method GenerateTable() returns (r: Checked<seq<Row>>)
      requires Keyed()
      ensures r.DivideByZero? <==> totalPackets == 0
      ensures r.Ok? ==> IsTable(r.value)
    {
      var table := [HEADER];
      var otherRow: Row := [];
      var rest := types.elems;
      ghost var order: seq<string> := [];
      ghost var listed: set<string> := {};
      while rest != {}
        invariant rest <= types.elems
        invariant rest != types.elems ==> totalPackets != 0
        invariant listed == types.elems - rest - {OTHER}
        invariant Enumerates(order, listed)
        invariant totalPackets != 0 ==> table == [HEADER] + RowsOf(order)
        invariant OTHER !in rest ==> otherRow == RowOf(OTHER)
        decreases rest
      {
        var t :| t in rest;
        if totalPackets == 0 {
          return DivideByZero;
        }
        var row := RowOf(t);
        rest := rest - {t};
        if t == OTHER {
          assert listed == types.elems - rest - {OTHER};
          otherRow := row;
          continue;
        }
        EnumeratesAppend(order, listed, t);
        listed := listed + {t};
        assert listed == types.elems - rest - {OTHER};
        assert (order + [t])[..|order|] == order;
        assert RowsOf(order + [t]) == RowsOf(order) + [RowOf(t)];
        table := table + [row];
        order := order + [t];
      }
      table := table + [otherRow];
      return Ok(table);
    }

    /** The Markdown of row `i`: preceded by the separator when it is the second. */
    static method RowMarkdown(row: Row, i: int, showReal: real -> string) returns (rowStr: string)
      ensures rowStr == (if i == 1 then Separator(|row|) else "") + RowLine(row, showReal)
    {
      var separator := "";
      if i == 1 {
        separator := "|";
        for k := 0 to |row|
          invariant separator == "|" + Dashes(k)
        {
          DashesStep(k);
          separator := separator + "--|";
        }
        separator := separator + "\n";
      }
      var line := "|";
      for k := 0 to |row|
        invariant line == "|" + Cells(row[..k], showReal)
      {
        CellsStep(row, k, showReal);
        line := line + Show(row[k], showReal) + "|";
      }
      assert row[..|row|] == row;
      line := line + "\n";
      rowStr := separator + line;
    }

    /** The table of the layer as Markdown: one line per row, each cell followed by
        a bar, and a line of dashes after the header; `showReal` renders a
        percentage. */
    method GenerateMarkdownTable(showReal: real -> string) returns (r: Checked<string>)
      requires Keyed()
      ensures r.DivideByZero? <==> totalPackets == 0
      ensures r.Ok? ==> exists table :: IsTable(table) && r.value == Markdown(table, showReal)
    {
      var generated := GenerateTable();
      if generated.DivideByZero? {
        return DivideByZero;
      }
      var table := generated.value;
      var markdown := "";
      for i := 0 to |table|
        invariant markdown == Markdown(table[..i], showReal)
      {
        var rowStr := RowMarkdown(table[i], i, showReal);
        MarkdownStep(table, i, showReal);
        markdown := markdown + rowStr;
      }
      assert table[..|table|] == table;
      return Ok(markdown);
    }
  }

  /** The layer after one more packet in bucket `b` is consistent again. */
  lemma AddedValid(l: Layer, counter: map<string, int>, sizes: map<string, seq<int>>,
                   headerSizes: map<string, seq<int>>, others: set<string>, b: string, size: int, headerSize: int)
    requires Tallied(l.types.elems, counter, sizes, headerSizes, l.totalPackets - 1, l.totalBytes - size, others)
    requires b in l.types.elems && l.others !! l.types.elems
    requires l.counter == counter[b := counter[b] + 1]
    requires l.sizes == sizes[b := sizes[b] + [size]]
    requires l.headerSizes == headerSizes[b := headerSizes[b] + [headerSize]]
    ensures l.Valid()
  {
    TalliedAdd(l.types.elems, counter, sizes, headerSizes, l.totalPackets - 1, l.totalBytes - size, others, b, size, headerSize, l.others);
  }

  /** One more occurrence in bucket `b` adds one to the packet total and `size` to the
      byte total. */
  lemma TallyUpdated(keys: set<string>, counter: map<string, int>, sizes: map<string, seq<int>>, b: string, size: int)
    requires b in keys && keys <= counter.Keys && keys <= sizes.Keys
    ensures Total(keys, counter[b := counter[b] + 1]) == Total(keys, counter) + 1
    ensures TotalBytes(keys, sizes[b := sizes[b] + [size]]) == TotalBytes(keys, sizes) + size
  {
    TotalBytesIsTotal(keys, sizes);
    TotalBytesIsTotal(keys, sizes[b := sizes[b] + [size]]);
    TotalUpdate(keys, counter, b, counter[b] + 1);
    var s := sizes[b] + [size];
    assert s[..|s| - 1] == sizes[b];
    assert BytesOf(sizes[b := s]) == BytesOf(sizes)[b := SumInts(sizes[b]) + size];
    TotalUpdate(keys, BytesOf(sizes), b, SumInts(sizes[b]) + size);
  }

  // ---------------------------------------------------------------------------
  // Markdown
  // ---------------------------------------------------------------------------

  function DigitChar(d: nat): (c: char)
    requires d < 10
    ensures '0' <= c <= '9'
  {
    "0123456789"[d]
  }

  /** The decimal digits of `n`, most significant first. */
  function Digits(n: nat): (s: string)
    ensures |s| > 0 && forall i :: 0 <= i < |s| ==> '0' <= s[i] <= '9'
  {
    if n < 10 then [DigitChar(n)] else Digits(n / 10) + [DigitChar(n % 10)]
  }

  /** The value of a string of decimal digits. */
  function ValueOf(s: string): int
    requires forall i :: 0 <= i < |s| ==> '0' <= s[i] <= '9'
  {
    if s == [] then 0 else 10 * ValueOf(s[..|s| - 1]) + (s[|s| - 1] - '0') as int
  }

  /** Reading the digits back gives the number. */
  lemma {:induction false} DigitsValue(n: nat)
    ensures ValueOf(Digits(n)) == n
  {
    if n >= 10 {
      DigitsValue(n / 10);
      var s := Digits(n);
      assert s[..|s| - 1] == Digits(n / 10);
    }
  }

  /** A whole number as Python's str prints it. */
  function IntToString(n: int): (s: string)
    ensures |s| > 0 && forall i :: 0 <= i < |s| ==> s[i] == '-' || '0' <= s[i] <= '9'
  {
    if n < 0 then "-" + Digits(-n) else Digits(n)
  }

  /** A cell as Python's str prints it; percentages are rendered by `showReal`. */
  function Show(c: Cell, showReal: real -> string): string {
    match c
    case Text(s) => s
    case Count(n) => IntToString(n)
    case Share(p) => showReal(p)
  }

  /** Each cell followed by a bar. */
  function Cells(row: Row, showReal: real -> string): string {
    if row == [] then "" else Cells(row[..|row| - 1], showReal) + Show(row[|row| - 1], showReal) + "|"
  }

  /** `k` column markers. */
  function Dashes(k: nat): string {
    if k == 0 then "" else Dashes(k - 1) + "--|"
  }

  /** The line of a row. */
  function RowLine(row: Row, showReal: real -> string): string {
    "|" + Cells(row, showReal) + "\n"
  }

  /** The line between the header and the first row of data. */
  function Separator(columns: nat): string {
    "|" + Dashes(columns) + "\n"
  }

  /** The lines of `table`, with the separator before its second row. */
  function Markdown(table: seq<Row>, showReal: real -> string): string {
    if table == [] then ""
    else
      var i := |table| - 1;
      Markdown(table[..i], showReal) + (if i == 1 then Separator(|table[i]|) else "") + RowLine(table[i], showReal)
  }

  lemma CellsStep(row: Row, k: nat, showReal: real -> string)
    requires k < |row|
    ensures "|" + Cells(row[..k + 1], showReal) == "|" + Cells(row[..k], showReal) + Show(row[k], showReal) + "|"
  {
    assert row[..k + 1][..k] == row[..k];
    var a, b, c := Cells(row[..k], showReal), Show(row[k], showReal), "|";
    assert "|" + (a + b + c) == "|" + a + b + c;
  }

  lemma DashesStep(k: nat)
    ensures "|" + Dashes(k + 1) == "|" + Dashes(k) + "--|"
  {
    assert "|" + (Dashes(k) + "--|") == "|" + Dashes(k) + "--|";
  }

  /** The Markdown of the first i + 1 rows extends that of the first i by row i. */
  lemma MarkdownStep(table: seq<Row>, i: nat, showReal: real -> string)
    requires i < |table|
    ensures Markdown(table[..i + 1], showReal)
         == Markdown(table[..i], showReal) + ((if i == 1 then Separator(|table[i]|) else "") + RowLine(table[i], showReal))
  {
    assert table[..i + 1][..i] == table[..i];
    var a, b, c := Markdown(table[..i], showReal), (if i == 1 then Separator(|table[i]|) else ""), RowLine(table[i], showReal);
    assert a + b + c == a + (b + c);
  }

  /** The number of line breaks in `s`. */
  function Newlines(s: string): nat {
    if s == [] then 0 else Newlines(s[..|s| - 1]) + (if s[|s| - 1] == '\n' then 1 else 0)
  }

  lemma {:induction false} NewlinesAppend(a: string, b: string)
    ensures Newlines(a + b) == Newlines(a) + Newlines(b)
    decreases |b|
  {
    if b != [] {
      var b' := b[..|b| - 1];
      assert (a + b)[..|a + b| - 1] == a + b';
      NewlinesAppend(a, b');
    } else {
      assert a + b == a;
    }
  }

  lemma {:induction false} NewlinesNone(s: string)
    requires forall i :: 0 <= i < |s| ==> s[i] != '\n'
    ensures Newlines(s) == 0
  {
    if s != [] {
      NewlinesNone(s[..|s| - 1]);
    }
  }

  /** No cell of `table` renders with a line break. */
  ghost predicate SingleLineCells(table: seq<Row>, showReal: real -> string) {
    forall i, j, k :: 0 <= i < |table| && 0 <= j < |table[i]| && 0 <= k < |Show(table[i][j], showReal)| ==>
      Show(table[i][j], showReal)[k] != '\n'
  }

  lemma {:induction false} CellsSingleLine(row: Row, showReal: real -> string)
    requires forall j, k :: 0 <= j < |row| && 0 <= k < |Show(row[j], showReal)| ==> Show(row[j], showReal)[k] != '\n'
    ensures Newlines(Cells(row, showReal)) == 0
  {
    if row != [] {
      var front := row[..|row| - 1];
      CellsSingleLine(front, showReal);
      var last := Show(row[|row| - 1], showReal);
      NewlinesNone(last);
      NewlinesNone("|");
      NewlinesAppend(Cells(front, showReal), last);
      NewlinesAppend(Cells(front, showReal) + last, "|");
    }
  }

  lemma {:induction false} DashesSingleLine(k: nat)
    ensures Newlines(Dashes(k)) == 0
  {
    if k > 0 {
      DashesSingleLine(k - 1);
      NewlinesNone("--|");
      NewlinesAppend(Dashes(k - 1), "--|");
    }
  }

  /** When no cell renders with a line break, the Markdown has one line per row and
      one more for the separator when there are at least two rows. */
  lemma {:induction false} MarkdownLines(table: seq<Row>, showReal: real -> string)
    requires SingleLineCells(table, showReal)
    ensures Newlines(Markdown(table, showReal)) == |table| + (if |table| >= 2 then 1 else 0)
  {
    if table != [] {
      var i := |table| - 1;
      var front := table[..i];
      assert SingleLineCells(front, showReal);
      MarkdownLines(front, showReal);
      var row := table[i];
      assert forall j, k :: 0 <= j < |row| && 0 <= k < |Show(row[j], showReal)| ==> Show(row[j], showReal)[k] != '\n';
      CellsSingleLine(row, showReal);
      NewlinesNone("|");
      NewlinesAppend("|", Cells(row, showReal));
      NewlinesAppend("|" + Cells(row, showReal), "\n");
      assert Newlines("\n") == 1 by {
        assert "\n"[..0] == [];
      }
      DashesSingleLine(|row|);
      NewlinesAppend("|", Dashes(|row|));
      NewlinesAppend("|" + Dashes(|row|), "\n");
      var sep := if i == 1 then Separator(|row|) else "";
      NewlinesAppend(Markdown(front, showReal), sep);
      NewlinesAppend(Markdown(front, showReal) + sep, RowLine(row, showReal));
    }
  }

  /** The Markdown of the first rows is a prefix of the Markdown of the table. */
  lemma {:induction false} MarkdownPrefix(table: seq<Row>, k: nat, showReal: real -> string)
    requires k <= |table|
    ensures Markdown(table[..k], showReal) <= Markdown(table, showReal)
  {
    if k < |table| {
      var front := table[..|table| - 1];
      MarkdownPrefix(front, k, showReal);
      assert front[..k] == table[..k];
    } else {
      assert table[..k] == table;
    }
  }

  /** The Markdown of two rows: the first, the separator, the second. */
  lemma MarkdownOfTwo(table: seq<Row>, showReal: real -> string)
    requires |table| >= 2
    ensures Markdown(table[..2], showReal) == RowLine(table[0], showReal) + Separator(|table[1]|) + RowLine(table[1], showReal)
  {
    var two := table[..2];
    var one := two[..1];
    assert one[..0] == [] && one[0] == table[0] && two[1] == table[1];
    assert Markdown(one, showReal) == RowLine(table[0], showReal) by {
      assert Markdown(one, showReal) == Markdown(one[..0], showReal) + "" + RowLine(one[0], showReal);
      assert "" + "" + RowLine(table[0], showReal) == RowLine(table[0], showReal);
    }
  }

  // ---------------------------------------------------------------------------
  // The columns of the table
  // ---------------------------------------------------------------------------

  /** The sum of the whole numbers in column `c` of `rows`. */
  function ColumnSum(rows: seq<Row>, c: nat): int {
    if rows == [] then 0
    else
      var row := rows[|rows| - 1];
      ColumnSum(rows[..|rows| - 1], c) + (if c < |row| && row[c].Count? then row[c].n else 0)
  }

  /** The sum of the percentages in the third column of `rows`. */
  function ShareSum(rows: seq<Row>): real {
    if rows == [] then 0.0
    else
      var row := rows[|rows| - 1];
      ShareSum(rows[..|rows| - 1]) + (if 2 < |row| && row[2].Share? then row[2].percent else 0.0)
  }

  /** The sum of `m` over the keys in `order`, in that order. */
  function SeqTotal(order: seq<string>, m: map<string, int>): int
    requires forall t :: t in order ==> t in m
  {
    if order == [] then 0 else SeqTotal(order[..|order| - 1], m) + m[order[|order| - 1]]
  }

  /** Summing along an enumeration of the keys gives their total. */
  lemma {:induction false} SeqTotalIsTotal(order: seq<string>, keys: set<string>, m: map<string, int>)
    requires Enumerates(order, keys) && keys <= m.Keys
    ensures SeqTotal(order, m) == Total(keys, m)
  {
    if order != [] {
      var front, t := order[..|order| - 1], order[|order| - 1];
      assert Enumerates(front, keys - {t}) by {
        forall k | k in keys - {t}
          ensures k in front
        {
          var i :| 0 <= i < |order| && order[i] == k;
          assert i < |order| - 1;
          assert front[i] == k;
        }
      }
      SeqTotalIsTotal(front, keys - {t}, m);
      TotalRemove(keys, m, t);
    } else {
      assert keys == {} by {
        forall k | k in keys
          ensures false
        {
        }
      }
    }
  }

  /** The count and byte columns of the rows of `order` sum the counters and the
      size lists of those types. */
  lemma {:induction false} RowsSums(l: Layer, order: seq<string>)
    requires l.Keyed() && l.totalPackets != 0
    requires forall t :: t in order ==> t in l.types.elems
    ensures ColumnSum(l.RowsOf(order), 1) == SeqTotal(order, l.counter)
    ensures ColumnSum(l.RowsOf(order), 3) == SeqTotal(order, BytesOf(l.sizes))
  {
    if order != [] {
      var front := order[..|order| - 1];
      RowsSums(l, front);
      var rows := l.RowsOf(order);
      assert rows[..|rows| - 1] == l.RowsOf(front);
    }
  }

  /** `row` has four cells and its percentage is its count * 100 / `total`. */
  predicate ShareRow(row: Row, total: real) {
    |row| == 4 && row[1].Count? && row[2].Share? && row[2].percent * total == row[1].n as real * 100.0
  }

  /** Rows whose percentage is count * 100 / `total` have percentages summing to the
      count column * 100 / `total`. */
  lemma {:induction false} SharesScale(rows: seq<Row>, total: real)
    requires forall i :: 0 <= i < |rows| ==> ShareRow(rows[i], total)
    ensures ShareSum(rows) * total == ColumnSum(rows, 1) as real * 100.0
  {
    if rows != [] {
      var front, row := rows[..|rows| - 1], rows[|rows| - 1];
      SharesScale(front, total);
      calc {
        ShareSum(rows) * total;
        (ShareSum(front) + row[2].percent) * total;
        ShareSum(front) * total + row[2].percent * total;
        ColumnSum(front, 1) as real * 100.0 + row[1].n as real * 100.0;
        ColumnSum(rows, 1) as real * 100.0;
      }
    }
  }

  /** The body rows of a table built along `order`. */
  function BodyRows(l: Layer, order: seq<string>): seq<Row>
    requires l.Keyed() && l.totalPackets != 0
    requires forall t :: t in order ==> t in l.types.elems
    reads l, l.types
  {
    l.RowsOf(order) + [l.RowOf(OTHER)]
  }

  /** Every body row has four cells, and its percentage is its count * 100 over the
      packet total. */
  lemma BodyRowsShares(l: Layer, order: seq<string>)
    requires l.Keyed() && l.totalPackets != 0
    requires forall t :: t in order ==> t in l.types.elems
    ensures forall i :: 0 <= i < |BodyRows(l, order)| ==> ShareRow(BodyRows(l, order)[i], l.totalPackets as real)
  {
    var rows := BodyRows(l, order);
    forall i | 0 <= i < |rows|
      ensures ShareRow(rows[i], l.totalPackets as real)
    {
      if i < |order| {
        assert rows[i] == l.RowsOf(order)[i];
      } else {
        assert rows[i] == l.RowOf(OTHER);
      }
    }
  }

  lemma TableColumns(l: Layer, order: seq<string>)
    requires l.Valid() && l.totalPackets != 0 && Enumerates(order, l.types.elems - {OTHER})
    ensures ColumnSum(BodyRows(l, order), 1) == l.totalPackets
    ensures ColumnSum(BodyRows(l, order), 3) == l.totalBytes
  {
    var keys := l.types.elems;
    var rows := BodyRows(l, order);
    assert rows[..|rows| - 1] == l.RowsOf(order);
    RowsSums(l, order);
    SeqTotalIsTotal(order, keys - {OTHER}, l.counter);
    SeqTotalIsTotal(order, keys - {OTHER}, BytesOf(l.sizes));
    TotalRemove(keys, l.counter, OTHER);
    TotalRemove(keys, BytesOf(l.sizes), OTHER);
    TotalBytesIsTotal(keys, l.sizes);
  }

  lemma TableShares(l: Layer, order: seq<string>)
    requires l.Keyed() && l.totalPackets != 0
    requires forall t :: t in order ==> t in l.types.elems
    requires ColumnSum(BodyRows(l, order), 1) == l.totalPackets
    ensures ShareSum(BodyRows(l, order)) == 100.0
  {
    var rows := BodyRows(l, order);
    var n := l.totalPackets as real;
    var x := ShareSum(rows);
    assert x * n == ColumnSum(rows, 1) as real * 100.0 by {
      BodyRowsShares(l, order);
      SharesScale(rows, n);
    }
    assert ColumnSum(rows, 1) as real == n;
    CancelFactor(x, 100.0, n);
  }

  /** The table's count column adds up to the packet total, its byte column to the
      byte total, and its percentages to 100. */
  lemma TableAddsUp(l: Layer, table: seq<Row>)
    requires l.Valid() && l.IsTable(table)
    ensures ColumnSum(table[1..], 1) == l.totalPackets
    ensures ColumnSum(table[1..], 3) == l.totalBytes
    ensures ShareSum(table[1..]) == 100.0
  {
    var order :| Enumerates(order, l.types.elems - {OTHER}) && table == [HEADER] + l.RowsOf(order) + [l.RowOf(OTHER)];
    assert table[1..] == BodyRows(l, order);
    TableColumns(l, order);
    assert forall t :: t in order ==> t in l.types.elems;
    TableShares(l, order);
  }

  lemma CancelFactor(x: real, y: real, n: real)
    requires n != 0.0 && x * n == y * n
    ensures x == y
  {
    assert (x - y) * n == 0.0;
  }

  /** The layer's Markdown starts with the line of column heads, followed by the
      separator line with one marker per column. */
  lemma MarkdownStartsWithHeader(l: Layer, table: seq<Row>, showReal: real -> string)
    requires l.Keyed() && l.IsTable(table)
    ensures RowLine(HEADER, showReal) + Separator(4) <= Markdown(table, showReal)
  {
    var order :| Enumerates(order, l.types.elems - {OTHER}) && table == [HEADER] + l.RowsOf(order) + [l.RowOf(OTHER)];
    assert |table| >= 2 && table[0] == HEADER;
    assert |table[1]| == 4 by {
      if order != [] {
        assert table[1] == l.RowsOf(order)[0];
      }
    }
    MarkdownPrefix(table, 2, showReal);
    MarkdownOfTwo(table, showReal);
  }
}
