/** The recursive value printers of Zend/zend.c over a finite, possibly cyclic
    graph of arrays, objects and references.  A recursion mark per node stops
    them; the marks are set and cleared as they go. */
module Printer {
  import opened Sequences

  type Id = nat

  datatype Scope = Public | Protected | Private(className: string)

  /** An array key; `prop` and `scope` are what a mangled property name unmangles
      to. */
  datatype Key = Number(n: int) | Name(raw: string, prop: string, scope: Scope)

  /** `Scalar` carries the text of a string, an integer or anything else that is
      printed by conversion. */
  datatype Value = Scalar(text: string) | Array(id: Id) | Object(id: Id) | Reference(id: Id)

  type Entries = seq<(Key, Value)>

  datatype EnumKind = NotEnum | PureEnum | BackedEnum(backing: string)

  datatype Properties = NoTable | Table(entries: Entries)

  datatype Node =
    | ArrayNode(immutable: bool, elements: Entries)
    | ObjectNode(className: string, kind: EnumKind, properties: Properties)
    | ReferenceNode(value: Value)

  type Graph = map<Id, Node>

  // ---------- Graphs ----------

  ghost predicate TargetOk(g: Graph, v: Value) {
    match v
    case Scalar(_) => true
    case Array(id) => id in g && g[id].ArrayNode?
    case Object(id) => id in g && g[id].ObjectNode?
    case Reference(_) => false
  }

  /** A reference never leads to a reference. */
  ghost predicate ValueOk(g: Graph, v: Value) {
    if v.Reference? then v.id in g && g[v.id].ReferenceNode? && TargetOk(g, g[v.id].value) else TargetOk(g, v)
  }

  ghost predicate EntriesOk(g: Graph, s: Entries) {
    forall k :: 0 <= k < |s| ==> ValueOk(g, s[k].1)
  }

  function EntriesOf(n: Node): Entries {
    match n
    case ArrayNode(_, s) => s
    case ObjectNode(_, _, Table(s)) => s
    case ObjectNode(_, _, NoTable) => []
    case ReferenceNode(_) => []
  }

  /** Immutable arrays hold scalars and immutable arrays, nested finitely:
      `rank` bounds the nesting. */
  ghost predicate ImmutableOk(g: Graph, rank: Id -> nat) {
    forall id, k :: id in g && g[id].ArrayNode? && g[id].immutable && 0 <= k < |g[id].elements| ==>
      var v := g[id].elements[k].1;
      v.Scalar? || (v.Array? && ValueOk(g, v) && g[v.id].immutable && rank(v.id) < rank(id))
  }

  ghost predicate GraphOk(g: Graph, rank: Id -> nat) {
    && (forall id :: id in g ==> EntriesOk(g, EntriesOf(g[id])))
    && ImmutableOk(g, rank)
  }

  // ---------- Termination ----------

  /** Nodes that may still be entered. */
  ghost function Unmarked(g: Graph, marks: set<Id>): nat {
    |g.Keys - marks|
  }

  lemma MarkingShrinks(g: Graph, marks: set<Id>, id: Id)
    requires id in g && id !in marks
    ensures Unmarked(g, marks + {id}) < Unmarked(g, marks)
  {
    assert g.Keys - (marks + {id}) == (g.Keys - marks) - {id};
  }

  ghost function TargetWeight(g: Graph, rank: Id -> nat, v: Value): nat
    requires TargetOk(g, v)
  {
    if v.Array? && g[v.id].immutable then rank(v.id) + 1
    else if v.Object? && g[v.id].properties == NoTable then 1
    else 0
  }

  /** How far a value is from being marked or done. */
  ghost function Weight(g: Graph, rank: Id -> nat, v: Value): nat
    requires ValueOk(g, v)
  {
    if v.Reference? then TargetWeight(g, rank, g[v.id].value) + 1 else TargetWeight(g, rank, v)
  }

  /** A bound above the weights of all entries. */
  ghost function Heft(g: Graph, rank: Id -> nat, s: Entries): (h: nat)
    requires EntriesOk(g, s)
    ensures forall k :: 0 <= k < |s| ==> Weight(g, rank, s[k].1) < h
  {
    if s == [] then 1
    else
      var w, h := Weight(g, rank, s[|s| - 1].1) + 1, Heft(g, rank, s[..|s| - 1]);
      if w > h then w else h
  }

  lemma {:induction false} HeftIsLeast(g: Graph, rank: Id -> nat, s: Entries, b: nat)
    requires EntriesOk(g, s) && b > 0 && forall k :: 0 <= k < |s| ==> Weight(g, rank, s[k].1) < b
    ensures Heft(g, rank, s) <= b
  {
    if s != [] {
      HeftIsLeast(g, rank, s[..|s| - 1], b);
    }
  }

  lemma ImmutableHeft(g: Graph, rank: Id -> nat, id: Id)
    requires GraphOk(g, rank) && id in g && g[id].ArrayNode? && g[id].immutable
    ensures EntriesOk(g, g[id].elements) && Heft(g, rank, g[id].elements) <= rank(id) + 1
  {
    var s := g[id].elements;
    assert EntriesOf(g[id]) == s;
    forall k | 0 <= k < |s| ensures Weight(g, rank, s[k].1) < rank(id) + 1 {
    }
    HeftIsLeast(g, rank, s, rank(id) + 1);
  }

  // ---------- The text ----------

  const INDENT: nat := 4

  function Spaces(n: nat): string {
    if n == 0 then "" else Spaces(n - 1) + " "
  }

  function Digits(n: nat): string {
    if n < 10 then ["0123456789"[n]] else Digits(n / 10) + ["0123456789"[n % 10]]
  }

  /** `smart_str_append_long` */
  function LongText(n: int): string {
    if n < 0 then "-" + Digits(-n) else Digits(n)
  }

  /** `smart_str_append_unsigned`: the key read as an unsigned 64-bit number. */
  function UnsignedText(n: int): string {
    Digits(n % 0x1_0000_0000_0000_0000)
  }

  function Label(k: Key, isObject: bool): string {
    match k
    case Number(n) => LongText(n)
    case Name(raw, prop, scope) =>
      if !isObject then raw
      else match scope
        case Public => prop
        case Protected => prop + ":protected"
        case Private(c) => prop + ":" + c + ":private"
  }

  function FlatLabel(k: Key): string {
    match k
    case Number(n) => UnsignedText(n)
    case Name(raw, _, _) => raw
  }

  function ObjectHead(n: Node): string
    requires n.ObjectNode?
  {
    n.className + match n.kind
      case NotEnum => " Object\n"
      case PureEnum => " Enum\n"
      case BackedEnum(b) => " Enum:" + b + "\n"
  }

  function EntryHead(k: Key, indent: nat, isObject: bool): string {
    Spaces(indent) + "[" + Label(k, isObject) + "] => "
  }

  function FlatHead(k: Key, first: bool): string {
    (if first then "" else ",") + "[" + FlatLabel(k) + "] => "
  }

  const RECURSION: string := " *RECURSION*"

  /** What the nested printer appends for `v` while the nodes in `marks` are being
      printed; `notice` stands for a node that would be entered again. */
  ghost function Text(notice: string, g: Graph, rank: Id -> nat, marks: set<Id>, v: Value, indent: nat): string
    requires GraphOk(g, rank) && ValueOk(g, v)
    decreases Unmarked(g, marks), Weight(g, rank, v), 1, 0
  {
    match v
    case Scalar(t) => t
    case Reference(id) => Text(notice, g, rank, marks, g[id].value, indent)
    case Array(id) =>
      var s := g[id].elements;
      assert EntriesOf(g[id]) == s;
      if g[id].immutable then
        ImmutableHeft(g, rank, id);
        "Array\n" + HashText(notice, g, rank, marks, s, indent, false)
      else if id in marks then "Array\n" + notice
      else
        MarkingShrinks(g, marks, id);
        "Array\n" + HashText(notice, g, rank, marks + {id}, s, indent, false)
    case Object(id) =>
      if id in marks then ObjectHead(g[id]) + notice
      else if g[id].properties == NoTable then ObjectHead(g[id]) + HashText(notice, g, rank, marks, [], indent, true)
      else
        MarkingShrinks(g, marks, id);
        ObjectHead(g[id]) + HashText(notice, g, rank, marks + {id}, EntriesOf(g[id]), indent, true)
  }

  ghost function HashText(notice: string, g: Graph, rank: Id -> nat, marks: set<Id>, s: Entries, indent: nat,
                          isObject: bool): string
    requires GraphOk(g, rank) && EntriesOk(g, s)
    decreases Unmarked(g, marks), Heft(g, rank, s), 0, |s| + 1
  {
    Spaces(indent) + "(\n" + EntriesText(notice, g, rank, marks, s, indent + INDENT, isObject) + Spaces(indent) + ")\n"
  }

  ghost function EntriesText(notice: string, g: Graph, rank: Id -> nat, marks: set<Id>, s: Entries, indent: nat,
                             isObject: bool): string
    requires GraphOk(g, rank) && EntriesOk(g, s)
    decreases Unmarked(g, marks), Heft(g, rank, s), 0, |s|
  {
    if s == [] then ""
    else
      var front := s[..|s| - 1];
      var last := s[|s| - 1];
      EntriesText(notice, g, rank, marks, front, indent, isObject)
        + (EntryHead(last.0, indent, isObject) + Text(notice, g, rank, marks, last.1, indent + INDENT) + "\n")
  }

  /** What the flat printer appends. */
  ghost function FlatText(notice: string, g: Graph, rank: Id -> nat, marks: set<Id>, v: Value): string
    requires GraphOk(g, rank) && ValueOk(g, v)
    decreases Unmarked(g, marks), Weight(g, rank, v), 1, 0
  {
    match v
    case Scalar(t) => t
    case Reference(id) => FlatText(notice, g, rank, marks, g[id].value)
    case Array(id) =>
      var s := g[id].elements;
      assert EntriesOf(g[id]) == s;
      if g[id].immutable then
        ImmutableHeft(g, rank, id);
        "Array (" + FlatEntries(notice, g, rank, marks, s) + ")"
      else if id in marks then "Array (" + notice
      else
        MarkingShrinks(g, marks, id);
        "Array (" + FlatEntries(notice, g, rank, marks + {id}, s) + ")"
    case Object(id) =>
      if id in marks then g[id].className + " Object (" + notice
      else if g[id].properties == NoTable then g[id].className + " Object (" + ")"
      else
        MarkingShrinks(g, marks, id);
        g[id].className + " Object (" + FlatEntries(notice, g, rank, marks + {id}, EntriesOf(g[id])) + ")"
  }

  ghost function FlatEntries(notice: string, g: Graph, rank: Id -> nat, marks: set<Id>, s: Entries): string
    requires GraphOk(g, rank) && EntriesOk(g, s)
    decreases Unmarked(g, marks), Heft(g, rank, s), 0, |s|
  {
    if s == [] then ""
    else
      var front := s[..|s| - 1];
      var last := s[|s| - 1];
      FlatEntries(notice, g, rank, marks, front)
        + (FlatHead(last.0, front == []) + FlatText(notice, g, rank, marks, last.1))
  }

  /** One more entry. */
  lemma EntriesStep(notice: string, g: Graph, rank: Id -> nat, marks: set<Id>, s: Entries, k: nat, indent: nat,
                    isObject: bool)
    requires GraphOk(g, rank) && EntriesOk(g, s) && k < |s|
    ensures EntriesOk(g, s[..k]) && EntriesOk(g, s[..k + 1]) && ValueOk(g, s[k].1)
    ensures EntriesText(notice, g, rank, marks, s[..k + 1], indent, isObject)
         == EntriesText(notice, g, rank, marks, s[..k], indent, isObject)
            + (EntryHead(s[k].0, indent, isObject) + Text(notice, g, rank, marks, s[k].1, indent + INDENT) + "\n")
    ensures FlatEntries(notice, g, rank, marks, s[..k + 1])
         == FlatEntries(notice, g, rank, marks, s[..k]) +
           (FlatHead(s[k].0, k == 0) + FlatText(notice, g, rank, marks, s[k].1))
  {
    assert s[..k + 1][..k] == s[..k];
  }

  lemma AssociateThree(a: string, b: string, c: string, d: string)
    ensures ((a + b) + c) + d == a + (b + c + d)
  {}

  lemma AssociateFive(a: string, b: string, c: string, d: string, e: string, f: string)
    ensures ((((a + b) + c) + d) + e) + f == a + (b + c + d + e + f)
  {}

  // ---------- The program ----------

  class ValuePrinter {
    const graph: Graph
    ghost const rank: Id -> nat
    /** The `smart_str` being built. */
    var buf: string
    /** The nodes whose recursion mark is set. */
    var marks: set<Id>

    ghost predicate Valid() { GraphOk(graph, rank) }

    constructor (graph: Graph, ghost rank: Id -> nat, marks: set<Id>)
      requires GraphOk(graph, rank)
      ensures Valid() && this.graph == graph && this.rank == rank && buf == "" && this.marks == marks
    {
      this.graph, this.rank, this.buf, this.marks := graph, rank, "", marks;
    }

    method AppendSpaces(n: nat)
      modifies this`buf
      ensures buf == old(buf) + Spaces(n)
    {
      for i := 0 to n
        invariant buf == old(buf) + Spaces(i)
      {
        buf := buf + " ";
      }
    }

    method AppendEntryHead(k: Key, indent: nat, isObject: bool)
      modifies this`buf
      ensures buf == old(buf) + EntryHead(k, indent, isObject)
    {
      AppendSpaces(indent);
      buf := buf + "[";
      buf := buf + Label(k, isObject);
      buf := buf + "] => ";
    }

    /** The body of the loop of `print_hash`. */
    method PrintEntry(k: Key, v: Value, indent: nat, isObject: bool)
      requires Valid() && ValueOk(graph, v)
      modifies this
      ensures marks == old(marks)
      ensures buf == old(buf) +
        (EntryHead(k, indent, isObject) + Text(RECURSION, graph, rank, old(marks), v, indent + INDENT) + "\n")
      decreases Unmarked(graph, marks), Weight(graph, rank, v), 4
    {
      AppendEntryHead(k, indent, isObject);
      PrintR(v, indent + INDENT);
      buf := buf + "\n";
    }

    /** The loop of `print_hash`. */
    method PrintEntries(s: Entries, indent: nat, isObject: bool)
      requires Valid() && EntriesOk(graph, s)
      modifies this
      ensures marks == old(marks)
      ensures buf == old(buf) + EntriesText(RECURSION, graph, rank, old(marks), s, indent, isObject)
      decreases Unmarked(graph, marks), Heft(graph, rank, s), 0
    {
      ghost var start, text, set0 := buf, "", marks;
      for k := 0 to |s|
        invariant marks == set0 && EntriesOk(graph, s[..k])
        invariant buf == start + text
        invariant text == EntriesText(RECURSION, graph, rank, set0, s[..k], indent, isObject)
      {
        EntriesStep(RECURSION, graph, rank, set0, s, k, indent, isObject);
        ghost var one := EntryHead(s[k].0, indent, isObject) +
          Text(RECURSION, graph, rank, set0, s[k].1, indent + INDENT) + "\n";
        PrintEntry(s[k].0, s[k].1, indent, isObject);
        Associate(start, text, one);
        text := text + one;
      }
      assert s[..|s|] == s;
    }

    /** `print_hash` */
    method PrintHash(s: Entries, indent: nat, isObject: bool)
      requires Valid() && EntriesOk(graph, s)
      modifies this
      ensures marks == old(marks)
      ensures buf == old(buf) + HashText(RECURSION, graph, rank, old(marks), s, indent, isObject)
      decreases Unmarked(graph, marks), Heft(graph, rank, s), 1
    {
      ghost var start, set0 := buf, marks;
      AppendSpaces(indent);
      buf := buf + "(\n";
      PrintEntries(s, indent + INDENT, isObject);
      AppendSpaces(indent);
      buf := buf + ")\n";
      ghost var entries := EntriesText(RECURSION, graph, rank, set0, s, indent + INDENT, isObject);
      AssociateFive(start, Spaces(indent), "(\n", entries, Spaces(indent), ")\n");
    }

    /** The array case. */
    method PrintArrayR(id: Id, indent: nat)
      requires Valid() && ValueOk(graph, Array(id))
      modifies this
      ensures marks == old(marks)
      ensures buf == old(buf) + Text(RECURSION, graph, rank, old(marks), Array(id), indent)
      decreases Unmarked(graph, marks), Weight(graph, rank, Array(id)), 2
    {
      ghost var start, set0 := buf, marks;
      var s := graph[id].elements;
      assert EntriesOf(graph[id]) == s;
      buf := buf + "Array\n";
      if graph[id].immutable {
        ImmutableHeft(graph, rank, id);
        PrintHash(s, indent, false);
        Associate(start, "Array\n", HashText(RECURSION, graph, rank, set0, s, indent, false));
      } else if id in marks {
        buf := buf + RECURSION;
        Associate(start, "Array\n", RECURSION);
      } else {
        MarkingShrinks(graph, marks, id);
        marks := marks + {id};
        PrintHash(s, indent, false);
        marks := marks - {id};
        Associate(start, "Array\n", HashText(RECURSION, graph, rank, set0 + {id}, s, indent, false));
      }
    }

    /** The object case. */
    method PrintObjectR(id: Id, indent: nat)
      requires Valid() && ValueOk(graph, Object(id))
      modifies this
      ensures marks == old(marks)
      ensures buf == old(buf) + Text(RECURSION, graph, rank, old(marks), Object(id), indent)
      decreases Unmarked(graph, marks), Weight(graph, rank, Object(id)), 2
    {
      ghost var start, set0 := buf, marks;
      var node := graph[id];
      var head := ObjectHead(node);
      buf := buf + head;
      if id in marks {
        buf := buf + RECURSION;
        Associate(start, head, RECURSION);
      } else if node.properties == NoTable {
        PrintHash([], indent, true);
        Associate(start, head, HashText(RECURSION, graph, rank, set0, [], indent, true));
      } else {
        var s := node.properties.entries;
        assert EntriesOf(node) == s;
        MarkingShrinks(graph, marks, id);
        marks := marks + {id};
        PrintHash(s, indent, true);
        marks := marks - {id};
        Associate(start, head, HashText(RECURSION, graph, rank, set0 + {id}, s, indent, true));
      }
    }

    /** `zend_print_zval_r_to_buf`: appends the text of `v` and leaves the marks
        as they were. */
    method PrintR(v: Value, indent: nat)
      requires Valid() && ValueOk(graph, v)
      modifies this
      ensures marks == old(marks)
      ensures buf == old(buf) + Text(RECURSION, graph, rank, old(marks), v, indent)
      decreases Unmarked(graph, marks), Weight(graph, rank, v), 3
    {
      match v {
        case Scalar(t) => buf := buf + t;
        case Reference(id) => PrintR(graph[id].value, indent);
        case Array(id) => PrintArrayR(id, indent);
        case Object(id) => PrintObjectR(id, indent);
      }
    }

    method AppendFlatHead(k: Key, first: bool)
      modifies this`buf
      ensures buf == old(buf) + FlatHead(k, first)
    {
      if !first {
        buf := buf + ",";
      }
      buf := buf + "[";
      buf := buf + FlatLabel(k);
      buf := buf + "] => ";
    }

    /** The body of the loop of `print_flat_hash`. */
    method PrintFlatEntry(k: Key, v: Value, first: bool)
      requires Valid() && ValueOk(graph, v)
      modifies this
      ensures marks == old(marks)
      ensures buf == old(buf) + (FlatHead(k, first) + FlatText(RECURSION, graph, rank, old(marks), v))
      decreases Unmarked(graph, marks), Weight(graph, rank, v), 4
    {
      AppendFlatHead(k, first);
      PrintFlat(v);
    }

    /** `print_flat_hash` */
    method PrintFlatHash(s: Entries)
      requires Valid() && EntriesOk(graph, s)
      modifies this
      ensures marks == old(marks)
      ensures buf == old(buf) + FlatEntries(RECURSION, graph, rank, old(marks), s)
      decreases Unmarked(graph, marks), Heft(graph, rank, s), 0
    {
      ghost var start, text, set0 := buf, "", marks;
      for k := 0 to |s|
        invariant marks == set0 && EntriesOk(graph, s[..k])
        invariant buf == start + text
        invariant text == FlatEntries(RECURSION, graph, rank, set0, s[..k])
      {
        EntriesStep(RECURSION, graph, rank, set0, s, k, 0, false);
        ghost var one := FlatHead(s[k].0, k == 0) + FlatText(RECURSION, graph, rank, set0, s[k].1);
        PrintFlatEntry(s[k].0, s[k].1, k == 0);
        Associate(start, text, one);
        text := text + one;
      }
      assert s[..|s|] == s;
    }

    method PrintFlatArray(id: Id)
      requires Valid() && ValueOk(graph, Array(id))
      modifies this
      ensures marks == old(marks)
      ensures buf == old(buf) + FlatText(RECURSION, graph, rank, old(marks), Array(id))
      decreases Unmarked(graph, marks), Weight(graph, rank, Array(id)), 2
    {
      ghost var start, set0 := buf, marks;
      var s := graph[id].elements;
      assert EntriesOf(graph[id]) == s;
      buf := buf + "Array (";
      if graph[id].immutable {
        ImmutableHeft(graph, rank, id);
        PrintFlatHash(s);
        buf := buf + ")";
        AssociateThree(start, "Array (", FlatEntries(RECURSION, graph, rank, set0, s), ")");
      } else if id in marks {
        buf := buf + RECURSION;
        Associate(start, "Array (", RECURSION);
      } else {
        MarkingShrinks(graph, marks, id);
        marks := marks + {id};
        PrintFlatHash(s);
        buf := buf + ")";
        marks := marks - {id};
        AssociateThree(start, "Array (", FlatEntries(RECURSION, graph, rank, set0 + {id}, s), ")");
      }
    }

    method PrintFlatObject(id: Id)
      requires Valid() && ValueOk(graph, Object(id))
      modifies this
      ensures marks == old(marks)
      ensures buf == old(buf) + FlatText(RECURSION, graph, rank, old(marks), Object(id))
      decreases Unmarked(graph, marks), Weight(graph, rank, Object(id)), 2
    {
      ghost var start, set0 := buf, marks;
      var node := graph[id];
      var head := node.className + " Object (";
      buf := buf + head;
      if id in marks {
        buf := buf + RECURSION;
        Associate(start, head, RECURSION);
      } else if node.properties == NoTable {
        buf := buf + ")";
        Associate(start, head, ")");
      } else {
        var s := node.properties.entries;
        assert EntriesOf(node) == s;
        MarkingShrinks(graph, marks, id);
        marks := marks + {id};
        PrintFlatHash(s);
        marks := marks - {id};
        buf := buf + ")";
        AssociateThree(start, head, FlatEntries(RECURSION, graph, rank, set0 + {id}, s), ")");
      }
    }

    /** `zend_print_flat_zval_r_to_buf` */
    method PrintFlat(v: Value)
      requires Valid() && ValueOk(graph, v)
      modifies this
      ensures marks == old(marks)
      ensures buf == old(buf) + FlatText(RECURSION, graph, rank, old(marks), v)
      decreases Unmarked(graph, marks), Weight(graph, rank, v), 3
    {
      match v {
        case Scalar(t) => buf := buf + t;
        case Reference(id) => PrintFlat(graph[id].value);
        case Array(id) => PrintFlatArray(id);
        case Object(id) => PrintFlatObject(id);
      }
    }
  }

  // ---------- The printers without marks ----------

  /** `part` is closed under what its nodes lead to, and `depth` falls along the way. */
  ghost predicate Acyclic(g: Graph, part: set<Id>, depth: Id -> nat) {
    && (forall id :: id in part ==> id in g)
    && (forall id, k :: id in part && 0 <= k < |EntriesOf(g[id])| ==>
          Within(part, EntriesOf(g[id])[k].1) && Level(depth, EntriesOf(g[id])[k].1) <= depth(id))
    && (forall id :: id in part && g[id].ReferenceNode? ==>
          Within(part, g[id].value) && Level(depth, g[id].value) <= depth(id))
  }

  ghost predicate Within(part: set<Id>, v: Value) { v.Scalar? || v.id in part }

  ghost predicate AllWithin(part: set<Id>, s: Entries) { forall k :: 0 <= k < |s| ==> Within(part, s[k].1) }

  ghost function Level(depth: Id -> nat, v: Value): nat {
    if v.Scalar? then 0 else depth(v.id) + 1
  }

  ghost predicate LevelsUpTo(depth: Id -> nat, s: Entries, b: nat) {
    forall k :: 0 <= k < |s| ==> Level(depth, s[k].1) <= b
  }

  /** The nested text of a value of an acyclic graph, with no marks to stop at. */
  ghost function PlainText(g: Graph, part: set<Id>, depth: Id -> nat, v: Value, indent: nat): string
    requires (forall id :: id in g ==> EntriesOk(g, EntriesOf(g[id]))) && Acyclic(g, part, depth) && ValueOk(g, v)
    requires Within(part, v)
    decreases Level(depth, v), 0
  {
    match v
    case Scalar(t) => t
    case Reference(id) => PlainText(g, part, depth, g[id].value, indent)
    case Array(id) => "Array\n" + PlainHash(g, part, depth, EntriesOf(g[id]), indent, false, depth(id))
    case Object(id) => ObjectHead(g[id]) + PlainHash(g, part, depth, EntriesOf(g[id]), indent, true, depth(id))
  }

  ghost function PlainHash(g: Graph, part: set<Id>, depth: Id -> nat, s: Entries, indent: nat, isObject: bool,
                           b: nat): string
    requires (forall id :: id in g ==> EntriesOk(g, EntriesOf(g[id]))) && Acyclic(g, part, depth)
    requires EntriesOk(g, s) && LevelsUpTo(depth, s, b) && AllWithin(part, s)
    decreases b, 1, |s| + 1
  {
    Spaces(indent) + "(\n" + PlainEntries(g, part, depth, s, indent + INDENT, isObject, b) + Spaces(indent) + ")\n"
  }

  ghost function PlainEntries(g: Graph, part: set<Id>, depth: Id -> nat, s: Entries, indent: nat, isObject: bool,
                              b: nat): string
    requires (forall id :: id in g ==> EntriesOk(g, EntriesOf(g[id]))) && Acyclic(g, part, depth)
    requires EntriesOk(g, s) && LevelsUpTo(depth, s, b) && AllWithin(part, s)
    decreases b, 1, |s|
  {
    if s == [] then ""
    else
      var front := s[..|s| - 1];
      var last := s[|s| - 1];
      PlainEntries(g, part, depth, front, indent, isObject, b)
        + (EntryHead(last.0, indent, isObject) + PlainText(g, part, depth, last.1, indent + INDENT) + "\n")
  }

  ghost function PlainFlat(g: Graph, part: set<Id>, depth: Id -> nat, v: Value): string
    requires (forall id :: id in g ==> EntriesOk(g, EntriesOf(g[id]))) && Acyclic(g, part, depth) && ValueOk(g, v)
    requires Within(part, v)
    decreases Level(depth, v), 0
  {
    match v
    case Scalar(t) => t
    case Reference(id) => PlainFlat(g, part, depth, g[id].value)
    case Array(id) => "Array (" + PlainFlatEntries(g, part, depth, EntriesOf(g[id]), depth(id)) + ")"
    case Object(id) =>
      g[id].className + " Object (" + PlainFlatEntries(g, part, depth, EntriesOf(g[id]), depth(id)) + ")"
  }

  ghost function PlainFlatEntries(g: Graph, part: set<Id>, depth: Id -> nat, s: Entries, b: nat): string
    requires (forall id :: id in g ==> EntriesOk(g, EntriesOf(g[id]))) && Acyclic(g, part, depth)
    requires EntriesOk(g, s) && LevelsUpTo(depth, s, b) && AllWithin(part, s)
    decreases b, 1, |s|
  {
    if s == [] then ""
    else
      var front := s[..|s| - 1];
      var last := s[|s| - 1];
      PlainFlatEntries(g, part, depth, front, b)
        + (FlatHead(last.0, front == []) + PlainFlat(g, part, depth, last.1))
  }

  /** Marks on nodes that are no deeper than `b` do not stop a printer there. */
  ghost predicate MarksAbove(depth: Id -> nat, marks: set<Id>, b: nat) {
    forall m :: m in marks ==> depth(m) >= b
  }

  /** Where the nodes a value leads to are acyclic, shared ones included, the marks
      change nothing: the text is that of the printer without them. */
  lemma {:induction false} AcyclicTextIsPlain(notice: string, g: Graph, rank: Id -> nat, part: set<Id>,
                                              depth: Id -> nat, marks: set<Id>, v: Value, indent: nat)
    requires GraphOk(g, rank) && ValueOk(g, v) && Acyclic(g, part, depth)
    requires Within(part, v) && MarksAbove(depth, marks, Level(depth, v))
    ensures Text(notice, g, rank, marks, v, indent) == PlainText(g, part, depth, v, indent)
    decreases Level(depth, v), 0
  {
    match v
    case Scalar(_) =>
    case Reference(id) => AcyclicTextIsPlain(notice, g, rank, part, depth, marks, g[id].value, indent);
    case Array(id) =>
      var s := EntriesOf(g[id]);
      assert s == g[id].elements;
      if g[id].immutable {
        AcyclicHashIsPlain(notice, g, rank, part, depth, marks, s, indent, false, depth(id));
      } else {
        AcyclicHashIsPlain(notice, g, rank, part, depth, marks + {id}, s, indent, false, depth(id));
      }
    case Object(id) =>
      if g[id].properties == NoTable {
        AcyclicHashIsPlain(notice, g, rank, part, depth, marks, [], indent, true, depth(id));
      } else {
        AcyclicHashIsPlain(notice, g, rank, part, depth, marks + {id}, EntriesOf(g[id]), indent, true, depth(id));
      }
  }

  lemma {:induction false} AcyclicHashIsPlain(notice: string, g: Graph, rank: Id -> nat, part: set<Id>,
                                              depth: Id -> nat,
                                              marks: set<Id>, s: Entries, indent: nat, isObject: bool, b: nat)
    requires GraphOk(g, rank) && EntriesOk(g, s) && Acyclic(g, part, depth)
    requires LevelsUpTo(depth, s, b) && AllWithin(part, s) && MarksAbove(depth, marks, b)
    ensures HashText(notice, g, rank, marks, s, indent, isObject) == PlainHash(g, part, depth, s, indent, isObject, b)
    decreases b, 1, |s| + 1
  {
    AcyclicEntriesArePlain(notice, g, rank, part, depth, marks, s, indent + INDENT, isObject, b);
  }

  lemma {:induction false} AcyclicEntriesArePlain(notice: string, g: Graph, rank: Id -> nat, part: set<Id>,
                                                  depth: Id -> nat, marks: set<Id>, s: Entries,
                                                  indent: nat, isObject: bool, b: nat)
    requires GraphOk(g, rank) && EntriesOk(g, s) && Acyclic(g, part, depth)
    requires LevelsUpTo(depth, s, b) && AllWithin(part, s) && MarksAbove(depth, marks, b)
    ensures EntriesText(notice, g, rank, marks, s, indent, isObject)
       == PlainEntries(g, part, depth, s, indent, isObject, b)
    decreases b, 1, |s|
  {
    if s != [] {
      AcyclicEntriesArePlain(notice, g, rank, part, depth, marks, s[..|s| - 1], indent, isObject, b);
      AcyclicTextIsPlain(notice, g, rank, part, depth, marks, s[|s| - 1].1, indent + INDENT);
    }
  }

  lemma {:induction false} AcyclicFlatIsPlain(notice: string, g: Graph, rank: Id -> nat, part: set<Id>,
                                              depth: Id -> nat, marks: set<Id>, v: Value)
    requires GraphOk(g, rank) && ValueOk(g, v) && Acyclic(g, part, depth)
    requires Within(part, v) && MarksAbove(depth, marks, Level(depth, v))
    ensures FlatText(notice, g, rank, marks, v) == PlainFlat(g, part, depth, v)
    decreases Level(depth, v), 0
  {
    match v
    case Scalar(_) =>
    case Reference(id) => AcyclicFlatIsPlain(notice, g, rank, part, depth, marks, g[id].value);
    case Array(id) =>
      var s := EntriesOf(g[id]);
      assert s == g[id].elements;
      if g[id].immutable {
        AcyclicFlatEntriesArePlain(notice, g, rank, part, depth, marks, s, depth(id));
      } else {
        AcyclicFlatEntriesArePlain(notice, g, rank, part, depth, marks + {id}, s, depth(id));
      }
    case Object(id) =>
      if g[id].properties != NoTable {
        AcyclicFlatEntriesArePlain(notice, g, rank, part, depth, marks + {id}, EntriesOf(g[id]), depth(id));
      }
  }

  lemma {:induction false} AcyclicFlatEntriesArePlain(notice: string, g: Graph, rank: Id -> nat, part: set<Id>,
                                                      depth: Id -> nat, marks: set<Id>, s: Entries, b: nat)
    requires GraphOk(g, rank) && EntriesOk(g, s) && Acyclic(g, part, depth)
    requires LevelsUpTo(depth, s, b) && AllWithin(part, s) && MarksAbove(depth, marks, b)
    ensures FlatEntries(notice, g, rank, marks, s) == PlainFlatEntries(g, part, depth, s, b)
    decreases b, 1, |s|
  {
    if s != [] {
      AcyclicFlatEntriesArePlain(notice, g, rank, part, depth, marks, s[..|s| - 1], b);
      AcyclicFlatIsPlain(notice, g, rank, part, depth, marks, s[|s| - 1].1);
    }
  }
}
