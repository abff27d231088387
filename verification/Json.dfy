/**
 JSON texts as sections 2 to 7 of RFC 8259 write them, with any whitespace and any choice of
 escapes, and the fact that makes them recoverable from prose: an object's text is a balanced block.
 */
module Json {
  import opened BraceScan

  /** One character of a string: itself, a two-character escape, or a four-digit one. */
  datatype JsonChar = Plain(c: char) | Short(c: char) | Unicode(d0: char, d1: char, d2: char, d3: char)

  datatype Exponent = NoExponent | Exponent(mark: char, sign: string, digits: string)

  datatype Json =
    | Word(text: string)
    | Number(minus: bool, whole: string, fraction: string, exponent: Exponent)
    | Str(chars: seq<JsonChar>)
    | Arr(gap: string, elements: seq<Slot>)
    | Obj(gap: string, members: seq<Member>)

  /** A value with the whitespace around it. */
  datatype Slot = Slot(before: string, value: Json, after: string)

  datatype Member = Member(before: string, name: seq<JsonChar>, after: string, slot: Slot)

  // ----- which values are written correctly -----

  predicate Whitespace(s: string)
  {
    forall c :: c in s ==> c in {' ', '\t', '\n', '\r'}
  }

  predicate Digits(s: string)
  {
    s != "" && forall c :: c in s ==> '0' <= c <= '9'
  }

  predicate HexDigit(c: char)
  {
    '0' <= c <= '9' || 'a' <= c <= 'f' || 'A' <= c <= 'F'
  }

  predicate ValidChar(k: JsonChar)
  {
    match k
    case Plain(c) => c >= ' ' && c != '"' && c != '\\'
    case Short(c) => c in {'"', '\\', '/', 'b', 'f', 'n', 'r', 't'}
    case Unicode(d0, d1, d2, d3) => HexDigit(d0) && HexDigit(d1) && HexDigit(d2) && HexDigit(d3)
  }

  predicate ValidChars(chars: seq<JsonChar>)
  {
    forall k :: k in chars ==> ValidChar(k)
  }

  predicate ValidExponent(e: Exponent)
  {
    e.Exponent? ==> e.mark in {'e', 'E'} && e.sign in {"", "+", "-"} && Digits(e.digits)
  }

  predicate Valid(j: Json)
    decreases j, 1
  {
    match j
    case Word(text) => text in {"true", "false", "null"}
    case Number(_, whole, fraction, exponent) =>
      && Digits(whole) && (whole[0] == '0' ==> |whole| == 1)
      && (fraction == "" || Digits(fraction))
      && ValidExponent(exponent)
    case Str(chars) => ValidChars(chars)
    case Arr(gap, elements) => Whitespace(gap) && ValidSlots(elements)
    case Obj(gap, members) => Whitespace(gap) && ValidMembers(members)
  }

  predicate ValidSlot(slot: Slot)
    decreases slot, 2
  {
    Whitespace(slot.before) && Valid(slot.value) && Whitespace(slot.after)
  }

  predicate ValidSlots(slots: seq<Slot>)
    decreases slots, 3
  {
    slots == [] || (ValidSlot(slots[0]) && ValidSlots(slots[1..]))
  }

  predicate ValidMembers(members: seq<Member>)
    decreases members, 3
  {
    members == [] || (
      && Whitespace(members[0].before) && ValidChars(members[0].name) && Whitespace(members[0].after)
      && ValidSlot(members[0].slot)
      && ValidMembers(members[1..]))
  }

  // ----- their text -----

  function CharText(k: JsonChar): string
  {
    match k
    case Plain(c) => [c]
    case Short(c) => ['\\', c]
    case Unicode(d0, d1, d2, d3) => ['\\', 'u', d0, d1, d2, d3]
  }

  function CharsText(chars: seq<JsonChar>): string
  {
    if chars == [] then "" else CharText(chars[0]) + CharsText(chars[1..])
  }

  function Quoted(chars: seq<JsonChar>): string
  {
    "\"" + CharsText(chars) + "\""
  }

  function NumberText(minus: bool, whole: string, fraction: string, exponent: Exponent): string
  {
    (if minus then "-" else "") + whole
    + (if fraction == "" then "" else "." + fraction)
    + (if exponent.NoExponent? then "" else [exponent.mark] + exponent.sign + exponent.digits)
  }

  function JsonText(j: Json): string
    decreases j, 1
  {
    match j
    case Word(text) => text
    case Number(minus, whole, fraction, exponent) => NumberText(minus, whole, fraction, exponent)
    case Str(chars) => Quoted(chars)
    case Arr(gap, elements) => "[" + gap + SlotsText(elements) + "]"
    case Obj(gap, members) => "{" + (gap + MembersText(members)) + "}"
  }

  function SlotText(slot: Slot): string
    decreases slot, 2
  {
    slot.before + JsonText(slot.value) + slot.after
  }

  function SlotsText(slots: seq<Slot>): string
    decreases slots, 3
  {
    if slots == [] then ""
    else SlotText(slots[0]) + (if |slots| == 1 then "" else ",") + SlotsText(slots[1..])
  }

  function MemberText(m: Member): string
    decreases m, 3
  {
    m.before + Quoted(m.name) + m.after + ":" + SlotText(m.slot)
  }

  function MembersText(members: seq<Member>): string
    decreases members, 4
  {
    if members == [] then ""
    else MemberText(members[0]) + (if |members| == 1 then "" else ",") + MembersText(members[1..])
  }

  // ----- every text is balanced -----

  ghost predicate Balanced(text: string)
  {
    exists items :: AllGood(items) && PrintAll(items) == text
  }

  lemma {:induction false} PrintConcat(a: seq<Item>, b: seq<Item>)
    requires AllGood(a) && AllGood(b)
    ensures AllGood(a + b) && PrintAll(a + b) == PrintAll(a) + PrintAll(b)
  {
    hide Good, Print;
    if a == [] {
      assert a + b == b;
    } else {
      PrintConcat(a[1..], b);
      assert (a + b)[0] == a[0] && (a + b)[1..] == a[1..] + b;
      assert PrintAll(a + b) == Print(a[0]) + PrintAll(a[1..] + b);
    }
  }

  lemma BalancedConcat(s: string, t: string)
    requires Balanced(s) && Balanced(t)
    ensures Balanced(s + t)
  {
    var a :| AllGood(a) && PrintAll(a) == s;
    var b :| AllGood(b) && PrintAll(b) == t;
    PrintConcat(a, b);
  }

  lemma BalancedItem(item: Item)
    requires Good(item)
    ensures Balanced(Print(item))
  {
    assert [item][1..] == [];
    assert PrintAll([item]) == Print(item);
    assert AllGood([item]);
  }

  predicate NoDelimiter(s: string)
  {
    forall c :: c in s ==> c !in {'"', '{', '}'}
  }

  lemma {:induction false} BalancedPlain(s: string)
    requires NoDelimiter(s)
    ensures Balanced(s)
  {
    if s == "" {
      assert AllGood([]) && PrintAll([]) == "";
    } else {
      assert s[0] in s && s == [s[0]] + s[1..];
      assert forall c :: c in s[1..] ==> c in s;
      BalancedItem(Other(s[0]));
      BalancedPlain(s[1..]);
      BalancedConcat([s[0]], s[1..]);
    }
  }

  /** The string characters as the scanner sees them: an escape and what it protects, or one character. */
  function Written(k: JsonChar): seq<StringChar>
  {
    match k
    case Plain(c) => [Raw(c)]
    case Short(c) => [Escape(c)]
    case Unicode(d0, d1, d2, d3) => [Escape('u'), Raw(d0), Raw(d1), Raw(d2), Raw(d3)]
  }

  function AllWritten(chars: seq<JsonChar>): seq<StringChar>
  {
    if chars == [] then [] else Written(chars[0]) + AllWritten(chars[1..])
  }

  lemma WrittenPrints(k: JsonChar, more: seq<StringChar>)
    requires ValidChar(k)
    ensures PrintChars(Written(k) + more) == CharText(k) + PrintChars(more)
    ensures forall w :: w in Written(k) ==> GoodChar(w)
  {
    hide PrintChars;
    match k
    case Plain(c) => PrintCharsStep(Raw(c), more);
    case Short(c) => PrintCharsStep(Escape(c), more);
    case Unicode(d0, d1, d2, d3) =>
      var m3 := [Raw(d3)] + more;
      var m2 := [Raw(d2)] + m3;
      var m1 := [Raw(d1)] + m2;
      var m0 := [Raw(d0)] + m1;
      PrintCharsStep(Raw(d3), more);
      PrintCharsStep(Raw(d2), m3);
      PrintCharsStep(Raw(d1), m2);
      PrintCharsStep(Raw(d0), m1);
      PrintCharsStep(Escape('u'), m0);
      assert Written(k) + more == [Escape('u')] + m0;
      assert CharText(k) == ['\\', 'u'] + [d0] + [d1] + [d2] + [d3];
  }

  lemma {:induction false} StringPrints(chars: seq<JsonChar>)
    requires ValidChars(chars)
    ensures PrintChars(AllWritten(chars)) == CharsText(chars)
    ensures forall w :: w in AllWritten(chars) ==> GoodChar(w)
  {
    if chars != [] {
      StringPrints(chars[1..]);
      WrittenPrints(chars[0], AllWritten(chars[1..]));
    }
  }

  lemma {:induction false} BalancedString(chars: seq<JsonChar>)
    requires ValidChars(chars)
    ensures Balanced(Quoted(chars))
  {
    StringPrints(chars);
    BalancedItem(Literal(AllWritten(chars)));
  }

  lemma BalancedBlock(text: string)
    requires Balanced(text)
    ensures Balanced("{" + text + "}") && IsBlock("{" + text + "}")
  {
    var items :| AllGood(items) && PrintAll(items) == text;
    BalancedItem(Block(items));
    assert Print(Block(items)) == "{" + text + "}";
  }

  lemma {:induction false} TextIsBalanced(j: Json)
    requires Valid(j)
    ensures Balanced(JsonText(j))
    ensures j.Obj? ==> IsBlock(JsonText(j))
    decreases j, 1
  {
    hide Balanced, IsBlock;
    match j
    case Word(text) => BalancedPlain(text);
    case Number(minus, whole, fraction, exponent) =>
      BalancedPlain(NumberText(minus, whole, fraction, exponent));
    case Str(chars) => BalancedString(chars);
    case Arr(gap, elements) =>
      BalancedPlain("[" + gap);
      BalancedPlain("]");
      SlotsAreBalanced(elements);
      BalancedConcat("[" + gap, SlotsText(elements));
      BalancedConcat("[" + gap + SlotsText(elements), "]");
    case Obj(gap, members) =>
      BalancedPlain(gap);
      MembersAreBalanced(members);
      BalancedConcat(gap, MembersText(members));
      BalancedBlock(gap + MembersText(members));
  }

  lemma {:induction false} SlotIsBalanced(slot: Slot)
    requires ValidSlot(slot)
    ensures Balanced(SlotText(slot))
    decreases slot, 2
  {
    hide Balanced;
    BalancedPlain(slot.before);
    TextIsBalanced(slot.value);
    BalancedPlain(slot.after);
    BalancedConcat(slot.before, JsonText(slot.value));
    BalancedConcat(slot.before + JsonText(slot.value), slot.after);
  }

  lemma {:induction false} SlotsAreBalanced(slots: seq<Slot>)
    requires ValidSlots(slots)
    ensures Balanced(SlotsText(slots))
    decreases slots, 3
  {
    hide Balanced;
    BalancedPlain("");
    BalancedPlain(",");
    if slots != [] {
      var comma := if |slots| == 1 then "" else ",";
      SlotIsBalanced(slots[0]);
      SlotsAreBalanced(slots[1..]);
      BalancedConcat(SlotText(slots[0]), comma);
      BalancedConcat(SlotText(slots[0]) + comma, SlotsText(slots[1..]));
    }
  }

  lemma {:induction false} MembersAreBalanced(members: seq<Member>)
    requires ValidMembers(members)
    ensures Balanced(MembersText(members))
    decreases members, 3
  {
    hide Balanced;
    BalancedPlain("");
    BalancedPlain(",");
    if members != [] {
      var comma := if |members| == 1 then "" else ",";
      var m := members[0];
      BalancedPlain(m.before);
      BalancedString(m.name);
      BalancedPlain(m.after + ":");
      SlotIsBalanced(m.slot);
      BalancedConcat(m.before, Quoted(m.name));
      BalancedConcat(m.before + Quoted(m.name), m.after + ":");
      BalancedConcat(m.before + Quoted(m.name) + (m.after + ":"), SlotText(m.slot));
      assert MemberText(m) == m.before + Quoted(m.name) + (m.after + ":") + SlotText(m.slot);
      MembersAreBalanced(members[1..]);
      BalancedConcat(MemberText(m), comma);
      BalancedConcat(MemberText(m) + comma, MembersText(members[1..]));
    }
  }
}
