/** How many bytes a payload takes as compact JSON in UTF-8, and that the order of its entries does not matter. */
module PayloadSize {
  import opened Prelude
  import opened Json

  /** The bytes of one character in UTF-8. */
  function Utf8Width(c: char): nat {
    if c as int < 0x80 then 1 else if c as int < 0x800 then 2 else if c as int < 0x1_0000 then 3 else 4
  }

  /** The code points that fit into so many bytes of UTF-8 (RFC 3629 section 3). */
  function Capacity(bytes: nat): nat {
    match bytes
    case 1 => 0x80
    case 2 => 0x800
    case 3 => 0x1_0000
    case 4 => 0x11_0000
    case _ => 0
  }

  /** Each character takes the fewest bytes it fits into. */
  lemma FewestBytes(c: char)
    ensures 1 <= Utf8Width(c) <= 4 && (c as int) < Capacity(Utf8Width(c))
    ensures forall n: nat | n < Utf8Width(c) :: Capacity(n) <= c as int
  {
  }

  function Width(s: string): nat {
    if s == "" then 0 else Utf8Width(s[0]) + Width(s[1..])
  }

  /** Every float is finite; `dumps` raises on any other. */
  predicate Finite(v: Value)
    decreases v, 1
  {
    match v
    case Float(lexeme) => FloatLexeme(lexeme)
    case Arr(items) => FiniteItems(items)
    case Obj(fields) => FiniteFields(fields)
    case _ => true
  }

  predicate FiniteItems(items: seq<Value>)
    decreases items, 0
  {
    items == [] || (Finite(items[0]) && FiniteItems(items[1..]))
  }

  predicate FiniteField(f: Field)
    decreases f, 2
  {
    Finite(f.1)
  }

  predicate FiniteFields(fields: seq<Field>)
    decreases fields, 3
  {
    fields == [] || (FiniteField(fields[0]) && FiniteFields(fields[1..]))
  }

  /** The size of the compact text in the order given; `None` when there is no such text. */
  function EncodedBytes(v: Value): Option<nat> {
    if Finite(v) then Some(Width(Write(v))) else None
  }

  lemma {:induction false} WidthAppend(a: string, b: string)
    ensures Width(a + b) == Width(a) + Width(b)
    decreases |a|
  {
    if a == "" {
      assert a + b == b;
    } else {
      assert (a + b)[1..] == a[1..] + b;
      WidthAppend(a[1..], b);
    }
  }

  /** The widths of items or entries, a comma or bracket counted with each. */
  function ItemsWidth(items: seq<Value>): nat {
    if items == [] then 0 else Width(Write(items[0])) + 1 + ItemsWidth(items[1..])
  }

  function FieldsWidth(fields: seq<Field>): nat {
    if fields == [] then 0 else Width(WriteField(fields[0])) + 1 + FieldsWidth(fields[1..])
  }

  lemma {:induction false} WrittenItemsWidth(items: seq<Value>)
    requires items != []
    ensures Width(WriteItems(items)) + 1 == ItemsWidth(items)
    decreases |items|
  {
    hide Write, Width;
    if |items| > 1 {
      var tail := WriteItems(items[1..]);
      WrittenItemsWidth(items[1..]);
      WidthAppend(Write(items[0]) + ",", tail);
      WidthAppend(Write(items[0]), ",");
      CommaWidth();
    } else {
      assert items[1..] == [];
    }
  }

  lemma CommaWidth()
    ensures Width(",") == 1 && Width("{") == 1 && Width("}") == 1 && Width("[") == 1 && Width("]") == 1
    ensures Width(":") == 1
  {
    assert ","[1..] == "" && "{"[1..] == "" && "}"[1..] == "" && "["[1..] == "" && "]"[1..] == "" && ":"[1..] == "";
  }

  lemma {:induction false} WrittenFieldsWidth(fields: seq<Field>)
    requires fields != []
    ensures Width(WriteFields(fields)) + 1 == FieldsWidth(fields)
    decreases |fields|
  {
    hide WriteField, Width;
    if |fields| > 1 {
      var tail := WriteFields(fields[1..]);
      WrittenFieldsWidth(fields[1..]);
      WidthAppend(WriteField(fields[0]) + ",", tail);
      WidthAppend(WriteField(fields[0]), ",");
      CommaWidth();
    } else {
      assert fields[1..] == [];
    }
  }

  lemma ObjectWidth(fields: seq<Field>)
    requires fields != []
    ensures Width(Write(Obj(fields))) == FieldsWidth(fields) + 1
  {
    var body := WriteFields(fields);
    hide WriteFields, Width;
    WrittenFieldsWidth(fields);
    CommaWidth();
    WidthAppend("{" + body, "}");
    WidthAppend("{", body);
  }

  lemma ArrayWidth(items: seq<Value>)
    requires items != []
    ensures Width(Write(Arr(items))) == ItemsWidth(items) + 1
  {
    var body := WriteItems(items);
    hide WriteItems, Width;
    WrittenItemsWidth(items);
    CommaWidth();
    WidthAppend("[" + body, "]");
    WidthAppend("[", body);
  }

  lemma FieldWidth(f: Field)
    ensures Width(WriteField(f)) == Width(Quote(f.0)) + 1 + Width(Write(f.1))
  {
    var key, value := Quote(f.0), Write(f.1);
    hide Width, Quote, Write;
    CommaWidth();
    WidthAppend(key + ":", value);
    WidthAppend(key, ":");
  }

  // ---------------------------------------------------------------- sorting entries changes no total

  lemma {:induction false} InsertTotals(f: Field, s: seq<Field>)
    ensures FieldsWidth(Insert(f, s)) == Width(WriteField(f)) + 1 + FieldsWidth(s)
    ensures FiniteFields(Insert(f, s)) <==> FiniteField(f) && FiniteFields(s)
    decreases |s|
  {
    hide WriteField, Width, FiniteField;
    if s != [] && !KeyLess(f.0, s[0].0) {
      InsertTotals(f, s[1..]);
      assert Insert(f, s)[1..] == Insert(f, s[1..]);
    } else {
      assert Insert(f, s)[1..] == s;
    }
  }

  lemma {:induction false} SortTotals(s: seq<Field>)
    ensures FieldsWidth(SortFields(s)) == FieldsWidth(s)
    ensures FiniteFields(SortFields(s)) <==> FiniteFields(s)
    decreases |s|
  {
    hide WriteField, Width, FiniteField;
    if s != [] {
      SortTotals(s[1..]);
      InsertTotals(s[0], SortFields(s[1..]));
    }
  }

  lemma {:induction false} FieldsBy(a: seq<Field>, b: seq<Field>)
    requires |a| == |b|
    requires forall i | 0 <= i < |a| ::
               Width(WriteField(a[i])) == Width(WriteField(b[i])) && (FiniteField(a[i]) <==> FiniteField(b[i]))
    ensures FieldsWidth(a) == FieldsWidth(b) && (FiniteFields(a) <==> FiniteFields(b))
    decreases |a|
  {
    hide WriteField, Width, FiniteField;
    if a != [] {
      forall i | 0 <= i < |a| - 1
        ensures Width(WriteField(a[1..][i])) == Width(WriteField(b[1..][i])) && (FiniteField(a[1..][i]) <==>
                    FiniteField(b[1..][i]))
      {
        assert a[1..][i] == a[i + 1] && b[1..][i] == b[i + 1];
      }
      FieldsBy(a[1..], b[1..]);
    }
  }

  lemma {:induction false} ItemsBy(a: seq<Value>, b: seq<Value>)
    requires |a| == |b|
    requires forall i | 0 <= i < |a| :: Width(Write(a[i])) == Width(Write(b[i])) && (Finite(a[i]) <==> Finite(b[i]))
    ensures ItemsWidth(a) == ItemsWidth(b) && (FiniteItems(a) <==> FiniteItems(b))
    decreases |a|
  {
    hide Write, Width, Finite;
    if a != [] {
      forall i | 0 <= i < |a| - 1
        ensures Width(Write(a[1..][i])) == Width(Write(b[1..][i])) && (Finite(a[1..][i]) <==> Finite(b[1..][i]))
      {
        assert a[1..][i] == a[i + 1] && b[1..][i] == b[i + 1];
      }
      ItemsBy(a[1..], b[1..]);
    }
  }

  lemma CanonItemsTotals(items: seq<Value>, c: seq<Value>)
    requires |c| == |items|
    requires forall i | 0 <= i < |items| ::
               Width(Write(c[i])) == Width(Write(items[i])) && (Finite(c[i]) <==> Finite(items[i]))
    ensures Width(Write(Arr(c))) == Width(Write(Arr(items))) && (Finite(Arr(c)) <==> Finite(Arr(items)))
  {
    ItemsBy(c, items);
    if items != [] {
      hide Write, Width;
      ArrayWidth(c);
      ArrayWidth(items);
    } else {
      assert c == items;
    }
  }

  lemma CanonFieldsTotals(fields: seq<Field>, c: seq<Field>)
    requires |c| == |fields|
    requires forall i | 0 <= i < |fields| :: c[i].0 == fields[i].0 && Width(Write(c[i].1)) == Width(Write(fields[i].1))
    requires forall i | 0 <= i < |fields| :: Finite(c[i].1) <==> Finite(fields[i].1)
    ensures Width(Write(Obj(SortFields(c)))) == Width(Write(Obj(fields))) && (Finite(Obj(SortFields(c))) <==>
                Finite(Obj(fields)))
  {
    hide Write, Width, Finite, WriteField, Quote;
    forall i | 0 <= i < |fields|
      ensures Width(WriteField(c[i])) == Width(WriteField(fields[i])) && (FiniteField(c[i]) <==> FiniteField(fields[i]))
    {
      FieldWidth(c[i]);
      FieldWidth(fields[i]);
    }
    FieldsBy(c, fields);
    SortTotals(c);
    SortFieldsSorts(c);
    FiniteObject(SortFields(c));
    FiniteObject(fields);
    if fields != [] {
      ObjectWidth(SortFields(c));
      ObjectWidth(fields);
    } else {
      assert SortFields(c) == fields;
    }
  }

  lemma FiniteObject(fields: seq<Field>)
    ensures Finite(Obj(fields)) <==> FiniteFields(fields)
  {
  }

  lemma {:induction false} CanonTotals(v: Value)
    ensures Width(Write(Canon(v))) == Width(Write(v)) && (Finite(Canon(v)) <==> Finite(v))
    decreases v
  {
    hide Write, Width, Finite;
    match v
    case Arr(items) =>
      var c := Canon(v).items;
      forall i | 0 <= i < |items|
        ensures Width(Write(c[i])) == Width(Write(items[i])) && (Finite(c[i]) <==> Finite(items[i]))
      {
        CanonTotals(items[i]);
      }
      CanonItemsTotals(items, c);
    case Obj(fields) =>
      var c := CanonFields(fields);
      CanonFieldsAt(fields);
      forall i | 0 <= i < |fields|
        ensures Width(Write(c[i].1)) == Width(Write(fields[i].1)) && (Finite(c[i].1) <==> Finite(fields[i].1))
      {
        CanonTotals(fields[i].1);
      }
      CanonFieldsTotals(fields, c);
    case _ =>
  }

  /** The same data has the same size, in whatever order its entries come. */
  lemma SameDataSameSize(v: Value, w: Value)
    requires Proper(v) && Proper(w) && SameData(v, w)
    ensures EncodedBytes(v) == EncodedBytes(w)
  {
    hide Write, Width, Finite, Proper, SameData;
    CanonDecidesSameData(v, w);
    CanonTotals(v);
    CanonTotals(w);
  }
}
