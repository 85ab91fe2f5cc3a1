/** What the printers of Zend/zend.c write for a key, an entry and a head, read back from
    the text. */
module PrinterText {
  import opened Sequences
  import opened Printer

  // ---------- Reading numbers ----------

  /** Reads decimal digits, the first one first. */
  function ReadOn(sofar: int, s: string): int
    decreases |s|
  {
    if s == "" then sofar else ReadOn(10 * sofar + (s[0] as int - 48), s[1..])
  }

  /** One digit or more, and a leading zero only in "0". */
  predicate IsNumeral(s: string) {
    && s != "" && (forall k :: 0 <= k < |s| ==> 48 <= s[k] as int <= 57)
    && (|s| > 1 ==> s[0] as int != 48)
  }

  /** The text of a number, with a minus sign exactly if it is negative. */
  predicate IsDecimal(s: string, n: int) {
    if n < 0 then s != "" && s[0] as int == 45 && IsNumeral(s[1..]) && ReadOn(0, s[1..]) == -n
    else IsNumeral(s) && ReadOn(0, s) == n
  }

  lemma {:induction false} ReadOneMore(sofar: int, s: string, c: char)
    ensures ReadOn(sofar, s + [c]) == 10 * ReadOn(sofar, s) + (c as int - 48)
    decreases |s|
  {
    if s == "" {
      assert s + [c] == [c] && [c][1..] == "";
    } else {
      assert (s + [c])[1..] == s[1..] + [c];
      ReadOneMore(10 * sofar + (s[0] as int - 48), s[1..], c);
    }
  }

  lemma {:induction false} DigitsAreRead(n: nat)
    ensures IsNumeral(Digits(n)) && ReadOn(0, Digits(n)) == n && (n > 0 ==> Digits(n)[0] as int != 48)
  {
    var last := "0123456789"[n % 10];
    assert last as int == 48 + n % 10;
    if n < 10 {
      ReadOneMore(0, "", last);
      assert "" + [last] == [last];
    } else {
      DigitsAreRead(n / 10);
      ReadOneMore(0, Digits(n / 10), last);
    }
  }

  /** The number that the flat printer shows for an integer key of 64 bits. */
  function AsUnsigned(n: int): int { if n < 0 then n + 0x1_0000_0000_0000_0000 else n }

  // ---------- Keys ----------

  /** Between the brackets of the nested printer: an integer in decimal, a string as it is,
      a property by its own name with its visibility. */
  predicate IsKey(k: Key, isObject: bool, s: string) {
    match k
    case Number(n) => IsDecimal(s, n)
    case Name(raw, prop, scope) =>
      if !isObject then s == raw
      else match scope
        case Public => s == prop
        case Protected => s == prop + ":protected"
        case Private(c) => s == prop + ":" + c + ":private"
  }

  /** Between the brackets of the flat printer: an integer read as unsigned, a string as
      it is. */
  predicate IsFlatKey(k: Key, s: string) {
    match k
    case Number(n) => IsDecimal(s, AsUnsigned(n))
    case Name(raw, _, _) => s == raw
  }

  /** An integer key is a signed 64-bit number. */
  predicate KeyOk(k: Key) { k.Number? ==> -0x8000_0000_0000_0000 <= k.n < 0x8000_0000_0000_0000 }

  lemma LabelIsKey(k: Key, isObject: bool)
    ensures IsKey(k, isObject, Label(k, isObject))
  {
    if k.Number? {
      if k.n < 0 {
        DigitsAreRead(-k.n);
        assert LongText(k.n)[1..] == Digits(-k.n);
      } else {
        DigitsAreRead(k.n);
      }
    }
  }

  lemma FlatLabelIsKey(k: Key)
    requires KeyOk(k)
    ensures IsFlatKey(k, FlatLabel(k))
  {
    if k.Number? {
      assert k.n % 0x1_0000_0000_0000_0000 == AsUnsigned(k.n);
      DigitsAreRead(AsUnsigned(k.n));
    }
  }

  // ---------- Entries ----------

  predicate IsBlank(s: string, n: nat) { |s| == n && forall k :: 0 <= k < n ==> s[k] as int == 32 }

  lemma {:induction false} SpacesAreBlank(n: nat)
    ensures IsBlank(Spaces(n), n)
  {
    if n > 0 {
      SpacesAreBlank(n - 1);
    }
  }

  /** The nested printer shows an entry on lines of its own: indented, its key in brackets,
      an arrow, its value indented further. */
  lemma EntryIsPrinted(notice: string, g: Graph, rank: Id -> nat, marks: set<Id>, s: Entries, k: nat, indent: nat,
                       isObject: bool) returns (blank: string, key: string)
    requires GraphOk(g, rank) && EntriesOk(g, s) && k < |s|
    ensures EntriesOk(g, s[..k]) && EntriesOk(g, s[..k + 1]) && ValueOk(g, s[k].1)
    ensures IsBlank(blank, indent) && IsKey(s[k].0, isObject, key)
    ensures EntriesText(notice, g, rank, marks, s[..k + 1], indent, isObject)
         == EntriesText(notice, g, rank, marks, s[..k], indent, isObject)
            + (blank + "[" + key + "] => " + Text(notice, g, rank, marks, s[k].1, indent + 4) + "\n")
  {
    blank, key := Spaces(indent), Label(s[k].0, isObject);
    SpacesAreBlank(indent);
    LabelIsKey(s[k].0, isObject);
    EntriesStep(notice, g, rank, marks, s, k, indent, isObject);
  }

  /** The flat printer shows it in place, after a comma unless it is the first. */
  lemma FlatEntryIsPrinted(notice: string, g: Graph, rank: Id -> nat, marks: set<Id>, s: Entries, k: nat)
    returns (key: string)
    requires GraphOk(g, rank) && EntriesOk(g, s) && k < |s| && KeyOk(s[k].0)
    ensures EntriesOk(g, s[..k]) && EntriesOk(g, s[..k + 1]) && ValueOk(g, s[k].1) && IsFlatKey(s[k].0, key)
    ensures FlatEntries(notice, g, rank, marks, s[..k + 1])
         == FlatEntries(notice, g, rank, marks, s[..k])
            + ((if k == 0 then "[" else ",[") + key + "] => " + FlatText(notice, g, rank, marks, s[k].1))
  {
    key := FlatLabel(s[k].0);
    FlatLabelIsKey(s[k].0);
    EntriesStep(notice, g, rank, marks, s, k, 0, false);
    assert FlatHead(s[k].0, k == 0) == (if k == 0 then "[" else ",[") + key + "] => ";
  }

  /** The entries of a table stand between brackets on lines of their own. */
  lemma TableIsPrinted(notice: string, g: Graph, rank: Id -> nat, marks: set<Id>, s: Entries, indent: nat,
                       isObject: bool)
    returns (blank: string)
    requires GraphOk(g, rank) && EntriesOk(g, s)
    ensures IsBlank(blank, indent)
    ensures HashText(notice, g, rank, marks, s, indent, isObject)
         == blank + "(\n" + EntriesText(notice, g, rank, marks, s, indent + 4, isObject) + blank + ")\n"
    ensures EntriesText(notice, g, rank, marks, [], indent + 4, isObject) == ""
    ensures FlatEntries(notice, g, rank, marks, []) == ""
  {
    blank := Spaces(indent);
    SpacesAreBlank(indent);
  }

  // ---------- Heads ----------

  /** An object shows its class and whether it is an enum, and of which type. */
  predicate IsObjectHead(n: Node, s: string)
    requires n.ObjectNode?
  {
    match n.kind
    case NotEnum => s == n.className + " Object\n"
    case PureEnum => s == n.className + " Enum\n"
    case BackedEnum(b) => s == n.className + " Enum:" + b + "\n"
  }

  lemma ObjectIsPrinted(notice: string, g: Graph, rank: Id -> nat, marks: set<Id>, id: Id, indent: nat)
    returns (head: string)
    requires GraphOk(g, rank) && ValueOk(g, Object(id))
    ensures IsObjectHead(g[id], head) && EntriesOk(g, EntriesOf(g[id]))
    ensures Text(notice, g, rank, marks, Object(id), indent)
         == head + if id in marks then notice
                   else HashText(notice, g, rank, if g[id].properties == NoTable then marks else marks + {id},
                                 EntriesOf(g[id]), indent, true)
    ensures FlatText(notice, g, rank, marks, Object(id))
         == g[id].className + " Object (" +
           if id in marks then notice
           else FlatEntries(notice, g, rank, if g[id].properties == NoTable then marks else marks + {id},
                            EntriesOf(g[id])) + ")"
  {
    head := ObjectHead(g[id]);
    if id !in marks && g[id].properties != NoTable {
      MarkingShrinks(g, marks, id);
    }
  }

  lemma ArrayIsPrinted(notice: string, g: Graph, rank: Id -> nat, marks: set<Id>, id: Id, indent: nat)
    requires GraphOk(g, rank) && ValueOk(g, Array(id))
    ensures EntriesOk(g, EntriesOf(g[id]))
    ensures var marks' := if g[id].immutable then marks else marks + {id};
      var stops := !g[id].immutable && id in marks;
      && Text(notice, g, rank, marks, Array(id), indent)
         == "Array\n" + (if stops then notice else HashText(notice, g, rank, marks', EntriesOf(g[id]), indent, false))
      && FlatText(notice, g, rank, marks, Array(id))
         == "Array (" + (if stops then notice else FlatEntries(notice, g, rank, marks', EntriesOf(g[id])) + ")")
  {
    assert EntriesOf(g[id]) == g[id].elements;
    if g[id].immutable {
      ImmutableHeft(g, rank, id);
    } else if id !in marks {
      MarkingShrinks(g, marks, id);
    }
  }

  /** A node that is being printed shows its head and the notice. */
  lemma RecursionIsPrinted(g: Graph, rank: Id -> nat, marks: set<Id>, id: Id, indent: nat)
    requires GraphOk(g, rank) && id in g && id in marks && !g[id].ReferenceNode?
    requires g[id].ArrayNode? ==> !g[id].immutable
    ensures g[id].ArrayNode? ==>
      && Text(RECURSION, g, rank, marks, Array(id), indent) == "Array\n" + " *RECURSION*"
      && FlatText(RECURSION, g, rank, marks, Array(id)) == "Array (" + " *RECURSION*"
    ensures g[id].ObjectNode? && g[id].kind.NotEnum? ==>
      && Text(RECURSION, g, rank, marks, Object(id), indent) == g[id].className + " Object\n" + " *RECURSION*"
      && FlatText(RECURSION, g, rank, marks, Object(id)) == g[id].className + " Object (" + " *RECURSION*"
  {
    if g[id].ArrayNode? {
      ArrayIsPrinted(RECURSION, g, rank, marks, id, indent);
    } else {
      var head := ObjectIsPrinted(RECURSION, g, rank, marks, id, indent);
    }
  }
}
