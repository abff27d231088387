/**
 The scanner that finds the first balanced `{...}` in a judge's reply, ignoring braces inside
 strings, and a grammar of balanced text that says independently what it accepts.
 */
module BraceScan {
  import opened Outcome

  /** The three scan variables. */
  datatype Scan = Scan(depth: int, inString: bool, escaped: bool)

  const OUTSIDE := Scan(0, false, false)

  predicate Closes(st: Scan, c: char)
  {
    !st.inString && c == '}' && st.depth == 1
  }

  function Next(st: Scan, c: char): Scan
  {
    if st.inString then
      if st.escaped then st.(escaped := false)
      else if c == '\\' then st.(escaped := true)
      else if c == '"' then st.(inString := false)
      else st
    else if c == '"' then st.(inString := true)
    else if c == '{' then st.(depth := st.depth + 1)
    else if c == '}' then st.(depth := st.depth - 1)
    else st
  }

  function Shift(k: nat, n: Option<nat>): Option<nat>
  {
    match n
    case None => None
    case Some(m) => Some(k + m)
  }

  /** How many characters the scan reads until the depth returns to zero, if it does. */
  function Close(s: string, st: Scan): Option<nat>
    decreases |s|
  {
    if s == "" then None
    else if Closes(st, s[0]) then Some(1)
    else Shift(1, Close(s[1..], Next(st, s[0])))
  }

  /** The loop of the scanner: the end of the span that starts at `start`. */
  method ScanFrom(text: string, start: nat) returns (end: Option<nat>)
    requires start <= |text|
    ensures end == Shift(start, Close(text[start..], OUTSIDE))
  {
    var depth, inString, escaped := 0, false, false;
    var index := start;
    while index < |text|
      invariant start <= index <= |text|
      invariant Close(text[start..], OUTSIDE)
             == Shift(index - start, Close(text[index..], Scan(depth, inString, escaped)))
    {
      var c := text[index];
      assert text[index..][0] == c && text[index..][1..] == text[index + 1..];
      ghost var before := Scan(depth, inString, escaped);
      if inString {
        if escaped {
          escaped := false;
        } else if c == '\\' {
          escaped := true;
        } else if c == '"' {
          inString := false;
        }
      } else if c == '"' {
        inString := true;
      } else if c == '{' {
        depth := depth + 1;
      } else if c == '}' {
        depth := depth - 1;
        if depth == 0 {
          return Some(index + 1);
        }
      }
      assert Next(before, c) == Scan(depth, inString, escaped);
      index := index + 1;
    }
    return None;
  }

  // ----- balanced text, as a grammar -----

  /** One character of a string literal, as written. */
  datatype StringChar = Raw(c: char) | Escape(c: char)

  /** Text between braces: other characters, string literals, and nested blocks. */
  datatype Item = Other(c: char) | Literal(chars: seq<StringChar>) | Block(items: seq<Item>)

  predicate GoodChar(k: StringChar)
  {
    k.Raw? ==> k.c != '"' && k.c != '\\'
  }

  predicate Good(item: Item)
    decreases item, 1
  {
    match item
    case Other(c) => c !in {'"', '{', '}'}
    case Literal(chars) => forall k :: k in chars ==> GoodChar(k)
    case Block(items) => AllGood(items)
  }

  predicate AllGood(items: seq<Item>)
    decreases items, 0
  {
    items == [] || (Good(items[0]) && AllGood(items[1..]))
  }

  function PrintChars(chars: seq<StringChar>): string
  {
    if chars == [] then ""
    else (if chars[0].Raw? then [chars[0].c] else ['\\', chars[0].c]) + PrintChars(chars[1..])
  }

  function Print(item: Item): string
    decreases item, 1
  {
    match item
    case Other(c) => [c]
    case Literal(chars) => "\"" + PrintChars(chars) + "\""
    case Block(items) => "{" + PrintAll(items) + "}"
  }

  function PrintAll(items: seq<Item>): string
    decreases items, 0
  {
    if items == [] then "" else Print(items[0]) + PrintAll(items[1..])
  }

  // ----- the scan reads a printed block exactly -----

  /** One turn of the loop. */
  lemma Turn(c: char, rest: string, st: Scan)
    ensures Close([c] + rest, st) == if Closes(st, c) then Some(1) else Shift(1, Close(rest, Next(st, c)))
  {
    assert ([c] + rest)[1..] == rest;
  }

  lemma PrintCharsStep(k: StringChar, chars: seq<StringChar>)
    ensures PrintChars([k] + chars) == (if k.Raw? then [k.c] else ['\\', k.c]) + PrintChars(chars)
  {
    assert ([k] + chars)[1..] == chars;
  }

  lemma {:induction false} ReadsString(chars: seq<StringChar>, rest: string, depth: int)
    requires forall k :: k in chars ==> GoodChar(k)
    ensures Close(PrintChars(chars) + "\"" + rest, Scan(depth, true, false))
         == Shift(|PrintChars(chars)| + 1, Close(rest, Scan(depth, false, false)))
    decreases |chars|
  {
    hide Close;
    var inside := Scan(depth, true, false);
    if chars == [] {
      assert PrintChars(chars) == "";
      assert PrintChars(chars) + "\"" + rest == ['"'] + rest;
      Turn('"', rest, inside);
    } else {
      var k, more := chars[0], PrintChars(chars[1..]) + "\"" + rest;
      assert GoodChar(k) && chars == [k] + chars[1..];
      PrintCharsStep(k, chars[1..]);
      ReadsString(chars[1..], rest, depth);
      if k.Raw? {
        assert PrintChars(chars) + "\"" + rest == [k.c] + more;
        Turn(k.c, more, inside);
      } else {
        assert PrintChars(chars) + "\"" + rest == ['\\'] + ([k.c] + more);
        Turn('\\', [k.c] + more, inside);
        Turn(k.c, more, Scan(depth, true, true));
      }
    }
  }

  /** Inside a block, a printed item is passed over at the same depth. */
  lemma {:induction false} ReadsItem(item: Item, rest: string, depth: int)
    requires Good(item) && depth >= 1
    ensures Close(Print(item) + rest, Scan(depth, false, false))
         == Shift(|Print(item)|, Close(rest, Scan(depth, false, false)))
    decreases item, 1
  {
    hide Close, PrintAll, PrintChars;
    var outside := Scan(depth, false, false);
    match item
    case Other(c) =>
      Turn(c, rest, outside);
    case Literal(chars) =>
      var more := PrintChars(chars) + "\"" + rest;
      assert Print(item) + rest == ['"'] + more;
      Turn('"', more, outside);
      ReadsString(chars, rest, depth);
    case Block(items) =>
      var more := PrintAll(items) + ("}" + rest);
      assert Print(item) + rest == ['{'] + more;
      Turn('{', more, outside);
      ReadsItems(items, "}" + rest, depth + 1);
      Turn('}', rest, Scan(depth + 1, false, false));
  }

  lemma {:induction false} ReadsItems(items: seq<Item>, rest: string, depth: int)
    requires AllGood(items) && depth >= 1
    ensures Close(PrintAll(items) + rest, Scan(depth, false, false))
         == Shift(|PrintAll(items)|, Close(rest, Scan(depth, false, false)))
    decreases items, 0
  {
    if items == [] {
      assert PrintAll(items) + rest == rest;
    } else {
      var more := PrintAll(items[1..]) + rest;
      assert PrintAll(items) + rest == Print(items[0]) + more;
      ReadsItem(items[0], more, depth);
      ReadsItems(items[1..], rest, depth);
    }
  }

  /** A printed block is read to its last character, whatever follows it. */
  lemma ReadsBlock(items: seq<Item>, rest: string)
    requires AllGood(items)
    ensures Close(Print(Block(items)) + rest, OUTSIDE) == Some(|Print(Block(items))|)
  {
    var s := Print(Block(items)) + rest;
    assert s[1..] == PrintAll(items) + ("}" + rest);
    ReadsItems(items, "}" + rest, 1);
  }

  // ----- and whatever the scan reads is a printed block -----

  /** The rest of a text inside `|layers|` open blocks, innermost first, each layer closed by a brace. */
  function PrintLayers(layers: seq<seq<Item>>): string
  {
    if layers == [] then "" else PrintAll(layers[0]) + "}" + PrintLayers(layers[1..])
  }

  ghost predicate Layered(text: string, depth: nat, layers: seq<seq<Item>>)
  {
    && |layers| == depth
    && (forall i :: 0 <= i < depth ==> AllGood(layers[i]))
    && text == PrintLayers(layers)
  }

  lemma {:induction false} CloseInside(s: string, st: Scan)
    requires Close(s, st).Some?
    ensures 0 < Close(s, st).value <= |s|
    decreases |s|
  {
    if !Closes(st, s[0]) { CloseInside(s[1..], Next(st, s[0])); }
  }

  /** What a finished scan says about its first character. */
  lemma FirstTurn(s: string, st: Scan, n: nat)
    requires Close(s, st) == Some(n)
    ensures 0 < n <= |s| && s == [s[0]] + s[1..] && s[..n] == [s[0]] + s[1..][..n - 1]
    ensures Closes(st, s[0]) ==> n == 1
    ensures !Closes(st, s[0]) ==> n > 1 && Close(s[1..], Next(st, s[0])) == Some(n - 1)
  {
    CloseInside(s, st);
    if !Closes(st, s[0]) { CloseInside(s[1..], Next(st, s[0])); }
  }

  lemma NoChars()
    ensures PrintChars([]) == ""
  {}

  /** A string literal the scan left behind was a printed one. */
  lemma {:induction false} StringWasPrinted(s: string, depth: int, n: nat) returns (chars: seq<StringChar>, used: nat)
    requires Close(s, Scan(depth, true, false)) == Some(n)
    ensures forall k :: k in chars ==> GoodChar(k)
    ensures 0 < used < n <= |s| && s[..used] == PrintChars(chars) + "\""
    ensures Close(s[used..], Scan(depth, false, false)) == Some(n - used)
    decreases |s|
  {
    hide Close, PrintChars;
    FirstTurn(s, Scan(depth, true, false), n);
    if s[0] == '"' {
      chars, used := [], 1;
      NoChars();
      assert s[..1] == "\"";
    } else if s[0] == '\\' {
      FirstTurn(s[1..], Scan(depth, true, true), n - 1);
      assert s[1..][1..] == s[2..];
      var more, k := StringWasPrinted(s[2..], depth, n - 2);
      chars, used := [Escape(s[1])] + more, k + 2;
      PrintCharsStep(Escape(s[1]), more);
      assert s[..used] == s[..2] + s[2..][..k];
      assert s[used..] == s[2..][k..];
    } else {
      var more, k := StringWasPrinted(s[1..], depth, n - 1);
      chars, used := [Raw(s[0])] + more, k + 1;
      PrintCharsStep(Raw(s[0]), more);
      assert s[..used] == [s[0]] + s[1..][..k];
      assert s[used..] == s[1..][k..];
    }
  }

  /** An item goes in front of the innermost layer. */
  lemma OneMore(item: Item, text: string, depth: nat, layers: seq<seq<Item>>) returns (more: seq<seq<Item>>)
    requires depth > 0 && Good(item) && Layered(text, depth, layers)
    ensures Layered(Print(item) + text, depth, more)
  {
    var grown := [item] + layers[0];
    assert grown[1..] == layers[0];
    more := [grown] + layers[1..];
    assert more[1..] == layers[1..];
    assert PrintLayers(more) == Print(item) + PrintLayers(layers);
  }

  /** A closing brace opens a new, still empty, innermost layer. */
  lemma ClosingBrace(text: string, depth: nat, layers: seq<seq<Item>>)
    requires Layered(text, depth, layers)
    ensures Layered("}" + text, depth + 1, [[]] + layers)
  {
    var more := [[]] + layers;
    assert more[1..] == layers;
    assert PrintLayers(more) == "" + "}" + PrintLayers(layers);
  }

  /** An opening brace turns the innermost layer into a block of the next one. */
  lemma OpeningBrace(text: string, depth: nat, layers: seq<seq<Item>>) returns (more: seq<seq<Item>>)
    requires depth > 0 && Layered(text, depth + 1, layers)
    ensures Layered("{" + text, depth, more)
  {
    var rest := PrintLayers(layers[1..]);
    var nested := Block(layers[0]);
    more := OneMore(nested, rest, depth, layers[1..]);
    assert "{" + text == Print(nested) + rest;
  }

  lemma NoLayers()
    ensures Layered("", 0, [])
  {}

  lemma {:induction false} SpanWasPrinted(s: string, depth: nat, n: nat) returns (layers: seq<seq<Item>>)
    requires depth >= 1 && Close(s, Scan(depth, false, false)) == Some(n)
    ensures n <= |s| && Layered(s[..n], depth, layers)
    decreases |s|
  {
    hide Close, PrintChars, PrintAll, PrintLayers, Layered;
    var st := Scan(depth, false, false);
    FirstTurn(s, st, n);
    if Closes(st, s[0]) {
      NoLayers();
      ClosingBrace("", 0, []);
      layers := [[]];
      assert [[]] + [] == layers && "}" + "" == s[..1];
    } else if s[0] == '"' {
      var chars, used := StringWasPrinted(s[1..], depth, n - 1);
      var inner := SpanWasPrinted(s[1..][used..], depth, n - 1 - used);
      layers := OneMore(Literal(chars), s[1..][used..][..n - 1 - used], depth, inner);
      assert s[1..][..n - 1] == s[1..][..used] + s[1..][used..][..n - 1 - used];
      assert s[..n] == Print(Literal(chars)) + s[1..][used..][..n - 1 - used];
    } else if s[0] == '{' {
      var inner := SpanWasPrinted(s[1..], depth + 1, n - 1);
      layers := OpeningBrace(s[1..][..n - 1], depth, inner);
    } else if s[0] == '}' {
      var inner := SpanWasPrinted(s[1..], depth - 1, n - 1);
      ClosingBrace(s[1..][..n - 1], depth - 1, inner);
      layers := [[]] + inner;
    } else {
      var inner := SpanWasPrinted(s[1..], depth, n - 1);
      layers := OneMore(Other(s[0]), s[1..][..n - 1], depth, inner);
    }
  }

  ghost predicate IsBlock(text: string)
  {
    exists items :: AllGood(items) && text == Print(Block(items))
  }

  lemma BalancedPrefixIsFound(s: string, k: nat)
    requires k <= |s| && IsBlock(s[..k])
    ensures Close(s, OUTSIDE) == Some(k)
  {
    hide Close, PrintAll, AllGood;
    var items :| AllGood(items) && s[..k] == Print(Block(items));
    ReadsBlock(items, s[k..]);
    assert s[..k] + s[k..] == s;
  }

  lemma FoundSpanIsBalanced(s: string, n: nat)
    requires s != "" && s[0] == '{' && Close(s, OUTSIDE) == Some(n)
    ensures n <= |s| && IsBlock(s[..n])
  {
    hide Close, PrintAll, AllGood;
    FirstTurn(s, OUTSIDE, n);
    var layers := SpanWasPrinted(s[1..], 1, n - 1);
    assert layers[1..] == [];
    assert PrintLayers(layers) == PrintAll(layers[0]) + "}" + "";
    assert s[..n] == Print(Block(layers[0]));
  }

  /**
   From an opening brace, the scan ends after n characters exactly when those n characters are a
   balanced block; it finds nothing exactly when no prefix is one. So the span is the only, hence
   the shortest, balanced prefix.
   */
  lemma ScanFindsTheBalancedPrefix(s: string, n: nat)
    requires s != "" && s[0] == '{'
    ensures Close(s, OUTSIDE) == Some(n) <==> n <= |s| && IsBlock(s[..n])
    ensures Close(s, OUTSIDE) == None <==> forall k: nat :: k <= |s| ==> !IsBlock(s[..k])
  {
    hide Close, IsBlock;
    forall k: nat | k <= |s| && IsBlock(s[..k])
      ensures Close(s, OUTSIDE) == Some(k)
    {
      BalancedPrefixIsFound(s, k);
    }
    if Close(s, OUTSIDE).Some? {
      FoundSpanIsBalanced(s, Close(s, OUTSIDE).value);
    }
  }
}
