/**
 The validator of untrusted payloads: one recursive visit that counts fields and values in two
 shared counters and stops at the first fault, against a description of the accepted payloads
 that mentions neither counters nor order.
 */
module PayloadValidator {
  import opened Prelude
  import opened Json
  import opened PayloadSize

  const MAX_BYTES := 4_096
  const MAX_DEPTH := 4
  const MAX_FIELDS := 50
  const MAX_FIELDS_PER_OBJECT := 20
  const MAX_ITEMS := 20
  const MAX_NODES := 100
  const MAX_STRING := 500
  const MAX_KEY := 64
  const MAX_INTEGER := 1_000_000_000_000_000

  /** What depends on regular expressions and on the values of floats. */
  datatype Rules = Rules(
    forbiddenKey: string -> bool,
    unsafeText: string -> bool,
    floatInRange: string -> bool)

  datatype Rejection = LimitExceeded | UnsafeContent

  datatype Visited = Counted(fields: nat, nodes: nat) | Refused(why: Rejection)

  predicate SafeNameChar(c: char) {
    'a' <= c <= 'z' || '0' <= c <= '9' || c == '_' || c == '-'
  }

  function KeyFault(rules: Rules, key: string): Option<Rejection> {
    if key == "" || |key| > MAX_KEY || !('a' <= key[0] <= 'z') || exists i | 0 <= i < |key| :: !SafeNameChar(key[i])
    then Some(UnsafeContent)
    else if rules.forbiddenKey(key) then Some(UnsafeContent)
    else None
  }

  function ScalarFault(rules: Rules, v: Value): Option<Rejection> {
    match v
    case Str(s) =>
      if |s| > MAX_STRING then Some(LimitExceeded)
      else if exists i | 0 <= i < |s| ::
        s[i] < ' ' && s[i] != '\t' && s[i] != '\n' && s[i] != '\r' then Some(UnsafeContent)
      else if rules.unsafeText(s) then Some(UnsafeContent)
      else None
    case Float(lexeme) => if rules.floatInRange(lexeme) then None else Some(LimitExceeded)
    case Int(n) => if n > MAX_INTEGER || n < -MAX_INTEGER then Some(LimitExceeded) else None
    case _ => None
  }

  // ---------------------------------------------------------------- the visit as a function

  function Visit(rules: Rules, v: Value, depth: nat, fields: nat, nodes: nat): Visited
    decreases v
  {
    if nodes + 1 > MAX_NODES || depth > MAX_DEPTH then Refused(LimitExceeded)
    else match v {
      case Obj(entries) =>
        if |entries| > MAX_FIELDS_PER_OBJECT || fields + |entries| > MAX_FIELDS then Refused(LimitExceeded)
        else VisitEntries(rules, entries, depth + 1, fields + |entries|, nodes + 1)
      case Arr(items) =>
        if |items| > MAX_ITEMS then Refused(LimitExceeded)
        else VisitItems(rules, items, depth + 1, fields, nodes + 1)
      case _ =>
        var fault := ScalarFault(rules, v);
        if fault.Some? then Refused(fault.value) else Counted(fields, nodes + 1)
    }
  }

  function VisitEntries(rules: Rules, entries: seq<Field>, depth: nat, fields: nat, nodes: nat): Visited
    decreases entries
  {
    if entries == [] then Counted(fields, nodes)
    else match VisitEntry(rules, entries[0], depth, fields, nodes) {
      case Refused(why) => Refused(why)
      case Counted(f, n) => VisitEntries(rules, entries[1..], depth, f, n)
    }
  }

  function VisitEntry(rules: Rules, entry: Field, depth: nat, fields: nat, nodes: nat): Visited
    decreases entry, 0
  {
    var fault := KeyFault(rules, entry.0);
    if fault.Some? then Refused(fault.value) else Visit(rules, entry.1, depth, fields, nodes)
  }

  function VisitItems(rules: Rules, items: seq<Value>, depth: nat, fields: nat, nodes: nat): Visited
    decreases items
  {
    if items == [] then Counted(fields, nodes)
    else match Visit(rules, items[0], depth, fields, nodes) {
      case Refused(why) => Refused(why)
      case Counted(f, n) => VisitItems(rules, items[1..], depth, f, n)
    }
  }

  // ---------------------------------------------------------------- the visit as the program runs it

  class Visitor {
    const rules: Rules
    var fields: nat
    var nodes: nat

    constructor (rules: Rules)
      ensures this.rules == rules && fields == 0 && nodes == 0
    {
      this.rules := rules;
      fields, nodes := 0, 0;
    }

    function Count(): Visited
      reads this
    {
      Counted(fields, nodes)
    }

    /** The counters after a refused visit are of no use to anyone. */
    method VisitItem(item: Value, depth: nat) returns (fault: Option<Rejection>)
      modifies this
      ensures (if fault.Some? then Refused(fault.value) else Count()) == Visit(rules, item, depth, old(fields),
                                                                               old(nodes))
      decreases item
    {
      ghost var start := Visit(rules, item, depth, fields, nodes);
      nodes := nodes + 1;
      if nodes > MAX_NODES {
        return Some(LimitExceeded);
      }
      if depth > MAX_DEPTH {
        return Some(LimitExceeded);
      }
      match item
      case Obj(entries) =>
        if |entries| > MAX_FIELDS_PER_OBJECT {
          return Some(LimitExceeded);
        }
        fields := fields + |entries|;
        if fields > MAX_FIELDS {
          return Some(LimitExceeded);
        }
        for i := 0 to |entries|
          invariant start == VisitEntries(rules, entries[i..], depth + 1, fields, nodes)
        {
          var key, child := entries[i].0, entries[i].1;
          var wrong := KeyFault(rules, key);
          if wrong.Some? {
            return wrong;
          }
          assert entries[i..][1..] == entries[i + 1..];
          var refused := VisitItem(child, depth + 1);
          if refused.Some? {
            return refused;
          }
        }
        return None;
      case Arr(items) =>
        if |items| > MAX_ITEMS {
          return Some(LimitExceeded);
        }
        for i := 0 to |items|
          invariant start == VisitItems(rules, items[i..], depth + 1, fields, nodes)
        {
          assert items[i..][1..] == items[i + 1..];
          var refused := VisitItem(items[i], depth + 1);
          if refused.Some? {
            return refused;
          }
        }
        return None;
      case _ =>
        return ScalarFault(rules, item);
    }
  }

  // ---------------------------------------------------------------- what is accepted

  /** Totals over a whole tree; `clean` holds when every container is narrow enough and every key and scalar passes. */
  datatype Shape = Shape(nodes: nat, fields: nat, height: nat, clean: bool)

  const NOTHING := Shape(0, 0, 0, true)

  function Max(a: nat, b: nat): nat {
    if a >= b then a else b
  }

  /** A child seen from its parent. */
  function Below(s: Shape): Shape {
    s.(height := s.height + 1)
  }

  function Beside(a: Shape, b: Shape): Shape {
    Shape(a.nodes + b.nodes, a.fields + b.fields, Max(a.height, b.height), a.clean && b.clean)
  }

  function ShapeOf(rules: Rules, v: Value): Shape
    decreases v
  {
    match v
    case Obj(entries) =>
      var inside := EntriesShape(rules, entries);
      Shape(1 + inside.nodes, |entries| + inside.fields, inside.height, |entries| <= MAX_FIELDS_PER_OBJECT
            && inside.clean)
    case Arr(items) =>
      var inside := ItemsShape(rules, items);
      Shape(1 + inside.nodes, inside.fields, inside.height, |items| <= MAX_ITEMS && inside.clean)
    case _ => Shape(1, 0, 0, ScalarFault(rules, v).None?)
  }

  function EntryShape(rules: Rules, f: Field): Shape
    decreases f, 0
  {
    var s := ShapeOf(rules, f.1);
    Below(s.(clean := s.clean && KeyFault(rules, f.0).None?))
  }

  function EntriesShape(rules: Rules, entries: seq<Field>): Shape
    decreases entries
  {
    if entries == [] then NOTHING else Beside(EntryShape(rules, entries[0]), EntriesShape(rules, entries[1..]))
  }

  function ItemsShape(rules: Rules, items: seq<Value>): Shape
    decreases items
  {
    if items == [] then NOTHING else Beside(Below(ShapeOf(rules, items[0])), ItemsShape(rules, items[1..]))
  }

  /** Room is left for a tree of this shape hung below `depth` edges. */
  predicate Fits(s: Shape, depth: nat, fields: nat, nodes: nat) {
    && s.clean
    && depth + s.height <= MAX_DEPTH
    && fields + s.fields <= MAX_FIELDS
    && nodes + s.nodes <= MAX_NODES
  }

  predicate Agrees(r: Visited, s: Shape, depth: nat, fields: nat, nodes: nat) {
    if Fits(s, depth, fields, nodes) then r == Counted(fields + s.fields, nodes + s.nodes) else r.Refused?
  }

  lemma {:induction false} VisitAgrees(rules: Rules, v: Value, depth: nat, fields: nat, nodes: nat)
    requires fields <= MAX_FIELDS
    ensures Agrees(Visit(rules, v, depth, fields, nodes), ShapeOf(rules, v), depth, fields, nodes)
    decreases v
  {
    hide KeyFault, ScalarFault, VisitEntries, VisitItems, EntriesShape, ItemsShape;
    if nodes + 1 <= MAX_NODES && depth <= MAX_DEPTH {
      match v
      case Obj(entries) =>
        if |entries| <= MAX_FIELDS_PER_OBJECT && fields + |entries| <= MAX_FIELDS {
          EntriesAgree(rules, entries, depth, fields + |entries|, nodes + 1);
        }
      case Arr(items) =>
        if |items| <= MAX_ITEMS {
          ItemsAgree(rules, items, depth, fields, nodes + 1);
        }
      case _ =>
    }
  }

  /** Visiting one tree and then others beside it. */
  lemma OneAfterAnother(first: Visited, s: Shape, next: Visited, others: Shape, depth: nat, fields: nat, nodes: nat)
    requires Agrees(first, s, depth, fields, nodes)
    requires first.Counted? ==> Agrees(next, others, depth, first.fields, first.nodes)
    ensures Agrees(if first.Counted? then next else first, Beside(s, others), depth, fields, nodes)
  {
  }

  lemma CountedWithin(r: Visited, s: Shape, depth: nat, fields: nat, nodes: nat)
    requires Agrees(r, s, depth, fields, nodes)
    ensures r.Counted? ==> r.fields <= MAX_FIELDS && r.nodes <= MAX_NODES
  {
  }

  lemma {:induction false} EntriesAgree(rules: Rules, entries: seq<Field>, depth: nat, fields: nat, nodes: nat)
    requires depth <= MAX_DEPTH && fields <= MAX_FIELDS && nodes <= MAX_NODES
    ensures Agrees(VisitEntries(rules, entries, depth + 1, fields, nodes), EntriesShape(rules, entries), depth, fields,
                   nodes)
    decreases entries
  {
    if entries != [] {
      hide VisitEntry, EntryShape;
      var first, s := VisitEntry(rules, entries[0], depth + 1, fields, nodes), EntryShape(rules, entries[0]);
      EntryAgrees(rules, entries[0], depth, fields, nodes);
      hide Agrees, Beside;
      CountedWithin(first, s, depth, fields, nodes);
      if first.Counted? {
        EntriesAgree(rules, entries[1..], depth, first.fields, first.nodes);
      }
      var next := if first.Counted? then VisitEntries(rules, entries[1..], depth + 1, first.fields, first.nodes)
                  else first;
      OneAfterAnother(first, s, next,
                      EntriesShape(rules, entries[1..]), depth, fields, nodes);
    }
  }

  lemma {:induction false} EntryAgrees(rules: Rules, entry: Field, depth: nat, fields: nat, nodes: nat)
    requires depth <= MAX_DEPTH && fields <= MAX_FIELDS
    ensures Agrees(VisitEntry(rules, entry, depth + 1, fields, nodes), EntryShape(rules, entry), depth, fields, nodes)
    decreases entry, 0
  {
    VisitAgrees(rules, entry.1, depth + 1, fields, nodes);
    hide Visit, KeyFault, ShapeOf;
  }

  lemma {:induction false} ItemsAgree(rules: Rules, items: seq<Value>, depth: nat, fields: nat, nodes: nat)
    requires depth <= MAX_DEPTH && fields <= MAX_FIELDS && nodes <= MAX_NODES
    ensures Agrees(VisitItems(rules, items, depth + 1, fields, nodes), ItemsShape(rules, items), depth, fields, nodes)
    decreases items
  {
    if items != [] {
      hide Visit, ShapeOf;
      var first, s := Visit(rules, items[0], depth + 1, fields, nodes), Below(ShapeOf(rules, items[0]));
      VisitAgrees(rules, items[0], depth + 1, fields, nodes);
      assert Agrees(first, s, depth, fields, nodes);
      hide Agrees, Beside, Below;
      CountedWithin(first, s, depth, fields, nodes);
      if first.Counted? {
        ItemsAgree(rules, items[1..], depth, first.fields, first.nodes);
      }
      var next := if first.Counted? then VisitItems(rules, items[1..], depth + 1, first.fields, first.nodes) else first;
      OneAfterAnother(first, s, next,
                      ItemsShape(rules, items[1..]), depth, fields, nodes);
    }
  }

  /** `_validate_payload`: `None` when the payload is accepted. */
  function PayloadFault(rules: Rules, v: Value): Option<Rejection> {
    match EncodedBytes(v)
    case None => Some(UnsafeContent)
    case Some(bytes) =>
      if bytes > MAX_BYTES then Some(LimitExceeded)
      else match Visit(rules, v, 0, 0, 0) {
        case Refused(why) => Some(why)
        case Counted(_, _) => None
      }
  }

  method ValidatePayload(rules: Rules, v: Value) returns (fault: Option<Rejection>)
    ensures fault == PayloadFault(rules, v)
  {
    var encoded := EncodedBytes(v);
    if encoded.None? {
      return Some(UnsafeContent);
    }
    if encoded.value > MAX_BYTES {
      return Some(LimitExceeded);
    }
    var visitor := new Visitor(rules);
    fault := visitor.VisitItem(v, 0);
  }

  /** A field name: one to 64 characters of its alphabet, starting with a letter, and not a forbidden one. */
  ghost predicate NameAllowed(rules: Rules, key: string) {
    && 1 <= |key| <= 64 && 'a' <= key[0] <= 'z' && !rules.forbiddenKey(key)
    && forall i | 0 <= i < |key| :: 'a' <= key[i] <= 'z' || '0' <= key[i] <= '9' || key[i] == '_' || key[i] == '-'
  }

  /** No control character but tab, line feed and carriage return, and no prohibited content. */
  ghost predicate TextAllowed(rules: Rules, s: string) {
    && (forall i | 0 <= i < |s| :: s[i] as int >= 32 || s[i] == '\t' || s[i] == '\n' || s[i] == '\r')
    && !rules.unsafeText(s)
  }

  /** Every field name and every text of the tree is harmless. */
  ghost predicate Harmless(rules: Rules, v: Value) {
    match v
    case Obj(entries) =>
      forall i | 0 <= i < |entries| :: NameAllowed(rules, entries[i].0) && Harmless(rules, entries[i].1)
    case Arr(items) => forall i | 0 <= i < |items| :: Harmless(rules, items[i])
    case Str(s) => TextAllowed(rules, s)
    case _ => true
  }

  /** Every object and array has at most 20 entries, every text at most 500 characters, every number its range. */
  ghost predicate Bounded(rules: Rules, v: Value) {
    match v
    case Obj(entries) => |entries| <= 20 && forall i | 0 <= i < |entries| :: Bounded(rules, entries[i].1)
    case Arr(items) => |items| <= 20 && forall i | 0 <= i < |items| :: Bounded(rules, items[i])
    case Str(s) => |s| <= 500
    case Int(n) => -1_000_000_000_000_000 <= n <= 1_000_000_000_000_000
    case Float(lexeme) => rules.floatInRange(lexeme)
    case _ => true
  }

  lemma {:induction false} CleanMeans(rules: Rules, v: Value)
    ensures ShapeOf(rules, v).clean <==> Harmless(rules, v) && Bounded(rules, v)
    decreases v
  {
    hide KeyFault, ScalarFault, NameAllowed, TextAllowed, EntriesShape, ItemsShape;
    match v
    case Obj(entries) =>
      CleanEntries(rules, v, entries);
    case Arr(items) =>
      CleanItems(rules, v, items);
    case _ =>
      CleanScalar(rules, v);
  }

  lemma CleanScalar(rules: Rules, v: Value)
    requires !v.Obj? && !v.Arr?
    ensures ScalarFault(rules, v).None? <==> Harmless(rules, v) && Bounded(rules, v)
  {
  }

  lemma {:induction false} CleanEntries(rules: Rules, parent: Value, entries: seq<Field>)
    requires forall i | 0 <= i < |entries| :: entries[i] < parent
    ensures EntriesShape(rules, entries).clean <==>
              forall i | 0 <= i < |entries| ::
                NameAllowed(rules, entries[i].0) && Harmless(rules, entries[i].1) && Bounded(rules, entries[i].1)
    decreases parent, |entries|
  {
    hide ShapeOf, NameAllowed, Harmless, Bounded, KeyFault;
    if entries != [] {
      NameFault(rules, entries[0].0);
      CleanMeans(rules, entries[0].1);
      CleanEntries(rules, parent, entries[1..]);
      assert entries == [entries[0]] + entries[1..];
    }
  }

  lemma NameFault(rules: Rules, key: string)
    ensures KeyFault(rules, key).None? <==> NameAllowed(rules, key)
  {
  }

  lemma {:induction false} CleanItems(rules: Rules, parent: Value, items: seq<Value>)
    requires forall i | 0 <= i < |items| :: items[i] < parent
    ensures ItemsShape(rules, items).clean <==>
              forall i | 0 <= i < |items| :: Harmless(rules, items[i]) && Bounded(rules, items[i])
    decreases parent, |items|
  {
    hide ShapeOf, Harmless, Bounded;
    if items != [] {
      CleanMeans(rules, items[0]);
      CleanItems(rules, parent, items[1..]);
      assert items == [items[0]] + items[1..];
    }
  }

  /** The payload encodes within 4,096 bytes, is harmless and bounded, and small enough as a whole. */
  ghost predicate Acceptable(rules: Rules, v: Value) {
    var s := ShapeOf(rules, v);
    && EncodedBytes(v).Some? && EncodedBytes(v).value <= 4_096
    && Harmless(rules, v) && Bounded(rules, v)
    && s.nodes <= 100 && s.fields <= 50 && s.height <= 4
  }

  /** The counting visit accepts exactly the acceptable payloads. */
  lemma ValidatorDecides(rules: Rules, v: Value)
    ensures PayloadFault(rules, v) == None <==> Acceptable(rules, v)
  {
    VisitAgrees(rules, v, 0, 0, 0);
    CleanMeans(rules, v);
    hide Visit, ShapeOf, EncodedBytes, Harmless, Bounded;
  }

  /** Content is blamed only on a payload that has some, and a limit only on one that exceeds some. */
  predicate Justified(r: Visited, harmless: bool, bounded: bool, s: Shape, depth: nat, fields: nat, nodes: nat) {
    && (r == Refused(UnsafeContent) ==> !harmless)
    && (r == Refused(LimitExceeded) ==>
          !bounded || depth + s.height > MAX_DEPTH || fields + s.fields > MAX_FIELDS || nodes + s.nodes > MAX_NODES)
  }

  lemma {:induction false} RefusalJustified(rules: Rules, v: Value, depth: nat, fields: nat, nodes: nat)
    requires fields <= MAX_FIELDS
    ensures Justified(Visit(rules, v, depth, fields, nodes), Harmless(rules, v), Bounded(rules, v), ShapeOf(rules, v),
                      depth, fields, nodes)
    decreases v
  {
    hide KeyFault, VisitEntries, VisitItems, EntriesShape, ItemsShape, NameAllowed;
    if nodes + 1 <= MAX_NODES && depth <= MAX_DEPTH {
      match v
      case Obj(entries) =>
        if |entries| <= MAX_FIELDS_PER_OBJECT && fields + |entries| <= MAX_FIELDS {
          EntriesJustified(rules, v, entries, depth, fields + |entries|, nodes + 1);
        }
      case Arr(items) =>
        if |items| <= MAX_ITEMS {
          ItemsJustified(rules, v, items, depth, fields, nodes + 1);
        }
      case _ =>
    }
  }

  lemma {:induction false} EntriesJustified(rules: Rules, parent: Value, entries: seq<Field>, depth: nat, fields: nat,
                                            nodes: nat)
    requires forall i | 0 <= i < |entries| :: entries[i] < parent
    requires depth <= MAX_DEPTH && fields <= MAX_FIELDS && nodes <= MAX_NODES
    ensures Justified(VisitEntries(rules, entries, depth + 1, fields, nodes),
                      forall i | 0 <= i < |entries| ::
                        NameAllowed(rules, entries[i].0) && Harmless(rules, entries[i].1),
                      forall i | 0 <= i < |entries| :: Bounded(rules, entries[i].1),
                      EntriesShape(rules, entries), depth, fields, nodes)
    decreases parent, |entries|
  {
    if entries != [] {
      hide Visit, ShapeOf, NameAllowed, Harmless, Bounded, KeyFault;
      var first := VisitEntry(rules, entries[0], depth + 1, fields, nodes);
      NameFault(rules, entries[0].0);
      NameBlame(rules, entries[0].0);
      RefusalJustified(rules, entries[0].1, depth + 1, fields, nodes);
      VisitAgrees(rules, entries[0].1, depth + 1, fields, nodes);
      if first.Counted? {
        EntriesJustified(rules, parent, entries[1..], depth, first.fields, first.nodes);
      }
      assert forall i | 0 <= i < |entries| - 1 :: entries[1..][i] == entries[i + 1];
    }
  }

  lemma NameBlame(rules: Rules, key: string)
    ensures KeyFault(rules, key).Some? ==> KeyFault(rules, key).value == UnsafeContent
  {
  }

  lemma {:induction false} ItemsJustified(rules: Rules, parent: Value, items: seq<Value>, depth: nat, fields: nat,
                                          nodes: nat)
    requires forall i | 0 <= i < |items| :: items[i] < parent
    requires depth <= MAX_DEPTH && fields <= MAX_FIELDS && nodes <= MAX_NODES
    ensures Justified(VisitItems(rules, items, depth + 1, fields, nodes),
                      forall i | 0 <= i < |items| :: Harmless(rules, items[i]),
                      forall i | 0 <= i < |items| :: Bounded(rules, items[i]),
                      ItemsShape(rules, items), depth, fields, nodes)
    decreases parent, |items|
  {
    if items != [] {
      hide Visit, ShapeOf, Harmless, Bounded;
      var first := Visit(rules, items[0], depth + 1, fields, nodes);
      RefusalJustified(rules, items[0], depth + 1, fields, nodes);
      VisitAgrees(rules, items[0], depth + 1, fields, nodes);
      if first.Counted? {
        ItemsJustified(rules, parent, items[1..], depth, first.fields, first.nodes);
      }
      assert forall i | 0 <= i < |items| - 1 :: items[1..][i] == items[i + 1];
    }
  }

  /**
   Which error a refused payload raises: "unsafe" only if it does not encode or has unsafe
   content, "limit" only if it exceeds one.
   */
  lemma RefusalIsTrue(rules: Rules, v: Value)
    ensures PayloadFault(rules, v) == Some(UnsafeContent) ==> EncodedBytes(v).None? || !Harmless(rules, v)
    ensures PayloadFault(rules, v) == Some(LimitExceeded) ==>
              var s := ShapeOf(rules, v);
              && EncodedBytes(v).Some?
              && (|| EncodedBytes(v).value > 4_096 || !Bounded(rules, v)
                  || s.nodes > 100 || s.fields > 50 || s.height > 4)
  {
    RefusalJustified(rules, v, 0, 0, 0);
    hide Visit, ShapeOf, EncodedBytes, Harmless, Bounded;
  }

  // ---------------------------------------------------------------- whatever the order of entries

  lemma {:induction false} InsertShape(rules: Rules, f: Field, s: seq<Field>)
    ensures EntriesShape(rules, Insert(f, s)) == Beside(EntryShape(rules, f), EntriesShape(rules, s))
    decreases |s|
  {
    hide EntryShape;
    if s != [] && !KeyLess(f.0, s[0].0) {
      InsertShape(rules, f, s[1..]);
      assert Insert(f, s)[1..] == Insert(f, s[1..]);
    } else {
      assert Insert(f, s)[1..] == s;
    }
  }

  lemma {:induction false} SortedShape(rules: Rules, s: seq<Field>)
    ensures EntriesShape(rules, SortFields(s)) == EntriesShape(rules, s)
    decreases |s|
  {
    hide EntryShape;
    if s != [] {
      SortedShape(rules, s[1..]);
      InsertShape(rules, s[0], SortFields(s[1..]));
    }
  }

  lemma {:induction false} EntriesShapeBy(rules: Rules, a: seq<Field>, b: seq<Field>)
    requires |a| == |b| && forall i | 0 <= i < |a| :: EntryShape(rules, a[i]) == EntryShape(rules, b[i])
    ensures EntriesShape(rules, a) == EntriesShape(rules, b)
    decreases |a|
  {
    hide EntryShape;
    if a != [] {
      forall i | 0 <= i < |a| - 1 ensures EntryShape(rules, a[1..][i]) == EntryShape(rules, b[1..][i]) {
        assert a[1..][i] == a[i + 1] && b[1..][i] == b[i + 1];
      }
      EntriesShapeBy(rules, a[1..], b[1..]);
    }
  }

  lemma {:induction false} ItemsShapeBy(rules: Rules, a: seq<Value>, b: seq<Value>)
    requires |a| == |b| && forall i | 0 <= i < |a| :: ShapeOf(rules, a[i]) == ShapeOf(rules, b[i])
    ensures ItemsShape(rules, a) == ItemsShape(rules, b)
    decreases |a|
  {
    hide ShapeOf;
    if a != [] {
      forall i | 0 <= i < |a| - 1 ensures ShapeOf(rules, a[1..][i]) == ShapeOf(rules, b[1..][i]) {
        assert a[1..][i] == a[i + 1] && b[1..][i] == b[i + 1];
      }
      ItemsShapeBy(rules, a[1..], b[1..]);
    }
  }

  lemma {:induction false} CanonShape(rules: Rules, v: Value)
    ensures ShapeOf(rules, Canon(v)) == ShapeOf(rules, v)
    decreases v
  {
    match v
    case Arr(items) =>
      var c := Canon(v).items;
      forall i | 0 <= i < |items| ensures ShapeOf(rules, c[i]) == ShapeOf(rules, items[i]) {
        CanonShape(rules, items[i]);
      }
      ItemsShapeBy(rules, c, items);
    case Obj(entries) =>
      var c := CanonFields(entries);
      CanonFieldsAt(entries);
      forall i | 0 <= i < |entries| ensures EntryShape(rules, c[i]) == EntryShape(rules, entries[i]) {
        CanonShape(rules, entries[i].1);
      }
      EntriesShapeBy(rules, c, entries);
      SortedShape(rules, c);
      SortFieldsSorts(c);
    case _ =>
  }

  /** Payloads that are the same data are accepted alike, in whatever order their entries arrive. */
  lemma OrderDoesNotMatter(rules: Rules, v: Value, w: Value)
    requires Proper(v) && Proper(w) && SameData(v, w)
    ensures PayloadFault(rules, v) == None <==> PayloadFault(rules, w) == None
  {
    hide ShapeOf, Visit, Proper, SameData, EncodedBytes, Harmless, Bounded;
    SameDataSameSize(v, w);
    CanonDecidesSameData(v, w);
    CanonShape(rules, v);
    CanonShape(rules, w);
    CleanMeans(rules, v);
    CleanMeans(rules, w);
    ValidatorDecides(rules, v);
    ValidatorDecides(rules, w);
  }
}
