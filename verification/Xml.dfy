// The XML reader and writer of Xml.c, and the volume history written and read with them (Combo.c).
// A `char *` is the string from there to the terminating zero, so stepping a pointer drops characters.
module Xml {
  import opened Sequences

  datatype Option<T> = None | Some(value: T)

  // ----- Reading -----

  /** BeginsWith, for a non-empty second string. */
  method BeginsWith(text: string, sub: string) returns (r: bool)
    requires sub != []
    ensures r <==> sub <= text
  {
    var i := 0;
    while i < |text| && text[i] == sub[i]
      invariant 0 <= i < |sub| && i <= |text| && text[..i] == sub[..i]
    {
      i := i + 1;
      assert text[..i] == text[..i - 1] + [text[i - 1]] && sub[..i] == sub[..i - 1] + [sub[i - 1]];
      if i == |sub| {
        assert sub == text[..i];
        return true;
      }
      if i == |text| {
        return false;
      }
    }
    r := false;
  }

  /** The first node start at or after the beginning: a '<' without '/' behind it. */
  function NodeFrom(t: string): (r: Option<string>)
    ensures r.Some? ==> 0 < |r.value| <= |t|
  {
    if t == [] then None
    else if t[0] == '<' && (|t| == 1 || t[1] != '/') then Some(t)
    else NodeFrom(t[1..])
  }

  method XmlNextNode(node: string) returns (r: Option<string>)
    requires node != []
    ensures r == NodeFrom(node[1..])
  {
    var t := node[1..];
    while t != []
      invariant NodeFrom(node[1..]) == NodeFrom(t)
      decreases |t|
    {
      if t[0] == '<' {
        if |t| == 1 || t[1] != '/' {
          return Some(t);
        }
      }
      t := t[1..];
    }
    r := None;
  }

  /** Whether a node of this name, with or without attributes, begins here (the first character is not looked at). */
  predicate Named(t: string, name: string) {
    && t != [] && name <= t[1..] && |t| > |name| + 1 && (t[|name| + 1] == '>' || t[|name| + 1] == ' ')
  }

  /** The first element of the name from here on. */
  function Element(t: string, name: string): (r: Option<string>)
    requires t != []
    ensures r.Some? ==> 0 < |r.value| <= |t| && Named(r.value, name)
    decreases |t|
  {
    if Named(t, name) then Some(t)
    else match NodeFrom(t[1..])
      case None => None
      case Some(u) => Element(u, name)
  }

  method XmlFindElement(node: string, name: string) returns (r: Option<string>)
    requires node != [] && name != []
    ensures r == Element(node, name)
  {
    var t := node;
    while true
      invariant t != [] && Element(node, name) == Element(t, name)
      decreases |t|
    {
      var begins := BeginsWith(t[1..], name);
      if begins && |t| > |name| + 1 && (t[|name| + 1] == '>' || t[|name| + 1] == ' ') {
        return Some(t);
      }
      var next := XmlNextNode(t);
      if next.None? {
        return None;
      }
      t := next.value;
    }
  }

  /** A node starts at `k`: a '<' that does not begin a closing tag. */
  predicate StartsNode(t: string, k: nat) { k < |t| && t[k] == '<' && (k + 1 < |t| ==> t[k + 1] != '/') }

  /** Nothing is passed over: the node found is the first, and if none is found there is none. */
  lemma {:induction false} NodeIsFirst(t: string)
    ensures var r := NodeFrom(t);
      var k := if r.Some? then |t| - |r.value| else |t|;
      && (r.Some? ==> r.value == t[k..] && StartsNode(t, k))
      && forall j :: 0 <= j < k ==> !StartsNode(t, j)
  {
    if t != [] && !StartsNode(t, 0) {
      NodeIsFirst(t[1..]);
      var r := NodeFrom(t[1..]);
      var k := if r.Some? then |t| - |r.value| else |t|;
      assert r.Some? ==> t[1..][k - 1..] == t[k..];
      forall j | 0 < j < k
        ensures !StartsNode(t, j)
      {
        assert !StartsNode(t[1..], j - 1);
      }
    }
  }

  /** The rest of `t` from its first node of that name on (the place the search begins at counts as one), or none. */
  ghost predicate FirstNamed(t: string, name: string, r: Option<string>) {
    var k := if r.Some? then |t| - |r.value| else |t|;
    && 0 <= k
    && (r.Some? ==> r.value == t[k..] && (k == 0 || StartsNode(t, k)) && Named(t[k..], name))
    && forall j :: 0 <= j < k && (j == 0 || StartsNode(t, j)) ==> !Named(t[j..], name)
  }

  /** Likewise an element: the first node of its name, or the place the search begins at. */
  lemma {:induction false} ElementIsFirst(t: string, name: string)
    requires t != []
    ensures FirstNamed(t, name, Element(t, name))
    decreases |t|
  {
    hide Named;
    assert t[0..] == t;
    if !Named(t, name) {
      NodeIsFirst(t[1..]);
      var next := NodeFrom(t[1..]);
      var m := if next.Some? then |t| - |next.value| else |t|;
      forall j | 0 < j < m
        ensures !StartsNode(t, j)
      {
        assert !StartsNode(t[1..], j - 1);
      }
      if next.Some? {
        var u := next.value;
        assert u == t[m..] && StartsNode(t, m) by { assert t[1..][m - 1..] == t[m..]; }
        ElementIsFirst(u, name);
        Later(t, u, m, name);
      }
    }
  }

  /** What holds behind `m` characters holds of the whole. */
  lemma Later(t: string, u: string, m: nat, name: string)
    requires m < |t| && u == t[m..] && StartsNode(t, m) && Element(t, name) == Element(u, name)
    requires !Named(t, name) && forall j :: 0 < j < m ==> !StartsNode(t, j)
    requires FirstNamed(u, name, Element(u, name))
    ensures FirstNamed(t, name, Element(t, name))
  {
    hide Named, Element;
    var r := Element(t, name);
    var k := if r.Some? then |t| - |r.value| else |t|;
    forall j | 0 <= j < k && (j == 0 || StartsNode(t, j))
      ensures !Named(t[j..], name)
    {
      if j == 0 {
        assert t[0..] == t;
      } else {
        assert j >= m;
        assert u[j - m..] == t[j..];
        assert j > m ==> StartsNode(u, j - m);
      }
    }
    if r.Some? {
      assert u[k - m..] == t[k..];
    }
  }

  /** strchr, as an index */
  function Find(t: string, c: char, from: nat): (i: nat)
    requires from <= |t|
    ensures from <= i <= |t| && (i < |t| ==> t[i] == c) && forall k :: from <= k < i ==> t[k] != c
    decreases |t| - from
  {
    if from == |t| || t[from] == c then from else Find(t, c, from + 1)
  }

  /** The character that stands at the beginning, and how much text it takes: three entities are known. */
  function Token(t: string): (r: (char, nat))
    requires t != []
    ensures 1 <= r.1 <= |t|
  {
    if "&lt;" <= t then ('<', 4) else if "&gt;" <= t then ('>', 4) else if "&amp;" <= t then ('&', 5) else (t[0], 1)
  }

  /** Text of `l` characters with the entities replaced. */
  function Decoded(t: string, l: int): string
    requires l <= |t|
    decreases |t|
  {
    if l <= 0 then [] else [Token(t).0] + Decoded(t[Token(t).1..], l - Token(t).1)
  }

  method NextToken(at: string) returns (c: char, n: nat)
    requires at != []
    ensures (c, n) == Token(at)
  {
    var lt := BeginsWith(at, "&lt;");
    if lt {
      return '<', 4;
    }
    var gt := BeginsWith(at, "&gt;");
    if gt {
      return '>', 4;
    }
    var amp := BeginsWith(at, "&amp;");
    if amp {
      return '&', 5;
    }
    return at[0], 1;
  }

  /** Lines 136 to 157: decoding into the buffer; `j` characters are there in the end. */
  method Decode(t: string, l: int, xmlText: array<char>) returns (j: nat)
    requires l <= |t| && l <= xmlText.Length
    modifies xmlText
    ensures j <= xmlText.Length && xmlText[..j] == Decoded(t, l)
    ensures j == 0 ==> xmlText[..] == old(xmlText[..])
  {
    hide Token;
    var i := 0;
    j := 0;
    assert t[0..] == t;
    while i < l
      invariant 0 <= i <= |t| && j <= i && (i == 0 || j > 0) && j <= xmlText.Length
      invariant Decoded(t, l) == xmlText[..j] + Decoded(t[i..], l - i)
      invariant j == 0 ==> xmlText[..] == old(xmlText[..])
      decreases l - i
    {
      var at := t[i..];
      var c, n := NextToken(at);
      assert at[n..] == t[i + n..];
      ghost var text := xmlText[..j];
      assert text + ([c] + Decoded(at[n..], l - i - n)) == (text + [c]) + Decoded(at[n..], l - i - n);
      xmlText[j] := c;
      assert xmlText[..j + 1] == text + [c];
      i, j := i + n, j + 1;
    }
  }

  /** What XmlGetNodeText comes to: NULL, the text, or a terminator put behind the buffer. */
  datatype Read = Refused | Text(text: string) | Beyond

  /** The text between the first '>' and the next '<', unless that is longer than the buffer; there must be room for
      its terminator, too. */
  function NodeText(node: string, size: nat): Read
    requires node != []
  {
    if node[0] != '<' then Refused
    else
      var t, e := Find(node, '>', 0) + 1, Find(node, '<', 1);
      if t > |node| || e == |node| || e - t > size then Refused
      else
        var text := Decoded(node[t..], e - t);
        if |text| < size then Text(text) else Beyond
  }

  /** A string with its terminator at the beginning of the buffer. */
  ghost predicate Holds(buffer: array<char>, text: string)
    reads buffer
  {
    |text| < buffer.Length && buffer[..|text|] == text && buffer[|text|] == '\0'
  }

  method XmlGetNodeText(node: string, xmlText: array<char>) returns (r: Read)
    requires node != [] && xmlText.Length > 0
    modifies xmlText
    ensures r == NodeText(node, xmlText.Length)
    ensures r.Refused? ==> Holds(xmlText, [])
    ensures r.Text? ==> Holds(xmlText, r.text)
  {
    xmlText[0] := '\0';
    if node[0] != '<' {
      return Refused;
    }
    var t := Find(node, '>', 0) + 1;
    if t > |node| {
      return Refused;
    }
    var e := Find(node, '<', 1);
    if e == |node| {
      return Refused;
    }
    var l: int := e - t;
    if l > xmlText.Length {
      return Refused;
    }
    var j := Decode(node[t..], l, xmlText);
    if j == xmlText.Length {
      return Beyond;
    }
    ghost var text := xmlText[..j];
    xmlText[j] := '\0';
    assert xmlText[..j] == text;
    r := Text(xmlText[..j]);
  }

  // ----- Writing -----

  function QuoteChar(c: char): string {
    if c == '&' then "&amp;" else if c == '>' then "&gt;" else if c == '<' then "&lt;" else [c]
  }

  function Quote(text: string): string {
    if text == [] then [] else QuoteChar(text[0]) + Quote(text[1..])
  }

  /** Each of the three characters as its entity, the others as they are. */
  lemma QuoteExample()
    ensures Quote("a<b>&") == "a" + "&lt;" + "b" + "&gt;" + "&amp;"
  {
    var t := "a<b>&";
    assert t[1..] == "<b>&" && t[1..][1..] == "b>&" && t[1..][1..][1..] == ">&" && t[1..][1..][1..][1..] == "&";
    assert Quote("&") == "&amp;";
    assert Quote(">&") == "&gt;" + "&amp;";
    assert Quote("b>&") == "b" + ("&gt;" + "&amp;");
    assert Quote("<b>&") == "&lt;" + ("b" + ("&gt;" + "&amp;"));
  }

  /** The texts XmlQuoteText can quote into `max` characters: an entity is only put where two characters stay free
      behind it, other characters where one does. */
  predicate QuotesWhole(text: string, max: nat) {
    |Quote(text)| + 2 <= max || (|Quote(text)| + 1 == max && (text == [] || |QuoteChar(text[|text| - 1])| == 1))
  }

  predicate Zeroed(buffer: array<char>, from: nat)
    reads buffer
  {
    forall i :: from <= i < buffer.Length ==> buffer[i] == '\0'
  }

  /** Characters put at `d`. */
  method Put(dst: array<char>, d: nat, s: string)
    requires d + |s| <= dst.Length
    modifies dst
    ensures dst[..d + |s|] == old(dst[..d]) + s
    ensures forall i :: d + |s| <= i < dst.Length ==> dst[i] == old(dst[i])
  {
    for i := 0 to |s|
      invariant dst[..d + i] == old(dst[..d]) + s[..i]
      invariant forall k :: d + i <= k < dst.Length ==> dst[k] == old(dst[k])
    {
      dst[d + i] := s[i];
      assert dst[..d + i + 1] == dst[..d + i] + [s[i]];
    }
    assert s[..|s|] == s;
  }

  lemma {:induction false} QuoteAppend(a: string, b: string)
    ensures Quote(a + b) == Quote(a) + Quote(b)
  {
    hide QuoteChar;
    if a == [] {
      assert a + b == b;
    } else {
      QuoteAppend(a[1..], b);
      assert (a + b)[1..] == a[1..] + b && (a + b)[0] == a[0];
      Associates(QuoteChar(a[0]), Quote(a[1..]), Quote(b));
    }
  }

  lemma {:induction false} QuoteLength(text: string)
    ensures |Quote(text)| >= |text|
  {
    if text != [] {
      QuoteLength(text[1..]);
    }
  }

  /** One more character, where the rest of the text is `src`. */
  lemma QuoteNext(text: string, k: nat)
    requires k < |text|
    ensures Quote(text[..k + 1]) == Quote(text[..k]) + QuoteChar(text[k])
    ensures Quote(text) == Quote(text[..k + 1]) + Quote(text[k + 1..]) && |Quote(text[k + 1..])| >= |text| - k - 1
  {
    hide QuoteChar;
    assert text[..k + 1] == text[..k] + [text[k]];
    QuoteAppend(text[..k], [text[k]]);
    assert [text[k]][1..] == [];
    assert text == text[..k + 1] + text[k + 1..];
    QuoteAppend(text[..k + 1], text[k + 1..]);
    QuoteLength(text[k + 1..]);
  }

  predicate IsPlain(c: char) { |QuoteChar(c)| == 1 }

  /** Character `i` still goes into `max` characters: an entity leaves two of them free, another character may take the
      last. */
  predicate Fits(text: string, i: nat, max: nat)
    requires i < |text|
  {
    |Quote(text[..i + 1])| + (if IsPlain(text[i]) then 0 else 2) <= max
  }

  /** The first `k` characters are quoted, and no more. */
  predicate Stops(text: string, k: nat, max: nat) {
    k <= |text| && (forall i :: 0 <= i < k ==> Fits(text, i, max)) && (k < |text| ==> !Fits(text, k, max))
  }

  /** An entity that leaves fewer than two characters free, or text up to the end of the buffer, cannot be whole. */
  lemma NotWhole(text: string, k: nat, max: nat)
    requires k < |text| && |Quote(text[..k + 1])| + (if |QuoteChar(text[k])| > 1 then 2 else 1) > max
    ensures !QuotesWhole(text, max)
  {
    hide QuoteChar;
    QuoteNext(text, k);
    if k + 1 == |text| {
      assert text[..k + 1] == text;
    }
  }

  /** One more character takes at least one more. */
  lemma Grows(text: string, k: nat)
    requires k < |text|
    ensures |Quote(text[..k + 1])| == |Quote(text[..k])| + |QuoteChar(text[k])| > |Quote(text[..k])|
  {
    hide QuoteChar;
    QuoteNext(text, k);
    QuoteCharLength(text[k]);
  }

  /** A character, or its entity and (strcpy) a terminator. */
  method PutQuoted(dst: array<char>, d: nat, c: char)
    requires d + |QuoteChar(c)| + (if |QuoteChar(c)| > 1 then 1 else 0) <= dst.Length
    modifies dst
    ensures dst[..d + |QuoteChar(c)|] == old(dst[..d]) + QuoteChar(c)
    ensures old(Zeroed(dst, d)) ==> Zeroed(dst, d + |QuoteChar(c)|)
  {
    hide QuoteChar;
    QuoteCharLength(c);
    Put(dst, d, QuoteChar(c));
    if c == '&' || c == '>' || c == '<' {
      ghost var d' := d + |QuoteChar(c)|;
      ghost var done := dst[..d'];
      dst[d + |QuoteChar(c)|] := '\0';
      assert dst[..d'] == done;
    }
  }

  /** XmlQuoteText: the quoted text with its terminator, exactly for the texts that can be quoted whole.  For the
      others (NULL) the buffer begins with the quoted form of the characters before the first that does not go in. */
  method XmlQuoteText(text: string, dst: array<char>) returns (r: Option<nat>, ghost k: nat)
    modifies dst
    ensures r.Some? <==> QuotesWhole(text, dst.Length)
    ensures r.Some? ==> k == |text| && r.value == |Quote(text)| && Holds(dst, Quote(text))
    ensures k <= |text| && Stops(text, k, dst.Length)
    ensures |Quote(text[..k])| <= dst.Length && dst[..|Quote(text[..k])|] == Quote(text[..k])
    ensures old(Zeroed(dst, 0)) ==> Zeroed(dst, |Quote(text[..k])|)
  {
    hide QuoteChar;
    var src, d := 0, 0;
    k := 0;
    assert text[..0] == [];
    var max := dst.Length;
    if max == 0 {
      if text != [] { Grows(text, 0); }
      return None, 0;
    }
    while src < |text| && d <= max - 1
      invariant k == src <= |text| && d == |Quote(text[..k])| <= max && dst[..d] == Quote(text[..k])
      invariant forall i :: 0 <= i < src ==> Fits(text, i, max)
      invariant src > 0 ==> d <= max - (if |QuoteChar(text[src - 1])| > 1 then 2 else 0)
      invariant old(Zeroed(dst, 0)) ==> Zeroed(dst, d)
    {
      var c := text[src];
      QuoteCharLength(c);
      QuoteNext(text, src);
      if c == '&' || c == '>' || c == '<' {
        var room := if c == '&' then 6 else 5;
        if d + room > max - 1 {
          NotWhole(text, src, max);
          return None, k;
        }
      }
      PutQuoted(dst, d, c);
      d, src := d + |QuoteChar(c)|, src + 1;
      k := src;
    }
    if d > max - 1 {
      NotWhole(text, k - 1, max);
      if k < |text| { Grows(text, k); }
      return None, k;
    }
    assert text[..k] == text;
    if text != [] { QuoteCharLength(text[|text| - 1]); }
    dst[d] := '\0';
    assert dst[..d] == Quote(text);
    r := Some(d);
  }

  // ----- Undoing -----

  lemma {:induction false} QuoteHasNoMarkup(text: string)
    ensures '<' !in Quote(text) && '>' !in Quote(text)
  {
    if text != [] {
      QuoteHasNoMarkup(text[1..]);
    }
  }

  lemma TokenOfQuote(c: char, tail: string)
    ensures Token(QuoteChar(c) + tail) == (c, |QuoteChar(c)|)
  {
    var t := QuoteChar(c) + tail;
    if c == '&' {
      assert "&amp;" <= t && t[1] == 'a';
    } else if c == '>' {
      assert "&gt;" <= t && t[1] == 'g';
    } else if c == '<' {
      assert "&lt;" <= t;
    } else {
      assert t[0] == c;
    }
  }

  /** Decoding quoted text gives the text, whatever follows. */
  lemma {:induction false} DecodedQuote(text: string, tail: string)
    ensures Decoded(Quote(text) + tail, |Quote(text)|) == text
  {
    hide Token, QuoteChar;
    if text != [] {
      var q, rest := QuoteChar(text[0]), Quote(text[1..]);
      TokenOfQuote(text[0], rest + tail);
      assert Quote(text) + tail == q + (rest + tail);
      assert (q + (rest + tail))[|q|..] == rest + tail;
      DecodedQuote(text[1..], tail);
      QuoteCharLength(text[0]);
      assert text == [text[0]] + text[1..];
    }
  }

  lemma QuoteCharLength(c: char)
    ensures |QuoteChar(c)| == if c == '&' then 5 else if c == '>' || c == '<' then 4 else 1
  {
  }

  // ----- The history -----

  const MAX_PATH: nat := 260

  const VERSION := "<?xml version=\"1.0\""

  const ENCODING := " encoding=\"utf-8\"?>\n"

  const HEADER := VERSION + ENCODING

  const ROOT := "<TrueCrypt>\n\t"

  const LIST := "<history>"

  const END := "\n\t</history>\n</TrueCrypt>"

  const NAME := "volume"

  /** One element. */
  function Item(q: string): string { "\n\t\t" + Node(q) }

  function Node(q: string): string { "<volume>" + q + "</volume>" }

  function Items(names: seq<string>): string {
    if names == [] then [] else Item(Quote(names[0])) + Items(names[1..])
  }

  /** What DumpCombo writes for these names. */
  function History(names: seq<string>): string { HEADER + ROOT + LIST + Items(names) + END }

  /** A history with one name. */
  lemma HistoryExample()
    ensures History(["a"]) ==
      "<?xml version=\"1.0\"" + " encoding=\"utf-8\"?>\n" + "<TrueCrypt>\n\t" + "<history>"
      + ("\n\t\t" + ("<volume>" + "a" + "</volume>")) + "\n\t</history>\n</TrueCrypt>"
  {
    assert Quote("a") == "a" by { assert "a"[1..] == ""; }
    assert ["a"][1..] == [];
    assert Items(["a"]) == Item("a");
  }

  /** Names that are read back: quoted form no longer than the reading buffer, and room for the terminator. */
  predicate Holdable(name: string) { |Quote(name)| <= MAX_PATH && |name| < MAX_PATH }

  /** The names written: not empty, and short enough for the buffer they are fetched into. */
  function Kept(names: seq<string>): seq<string> {
    if names == [] then []
    else
      var n := names[|names| - 1];
      Kept(names[..|names| - 1]) + if n != [] && |n| < MAX_PATH then [n] else []
  }

  const QUOTE_SIZE: nat := 2 * MAX_PATH

  /** What is written of a name: as much as can be quoted. */
  predicate Written(name: string, part: string) { part <= name && Stops(name, |part|, QUOTE_SIZE) }

  /** The names whose quoted form fills the buffer to the end, leaving no room for a terminator: at some character it
      is exactly as long as the buffer, and the last two characters are no entities. */
  predicate Unterminated(name: string) {
    exists k :: 2 <= k <= |name| && |Quote(name[..k])| == QUOTE_SIZE && IsPlain(name[k - 2]) && IsPlain(name[k - 1])
  }

  lemma {:induction false} PrefixGrows(text: string, i: nat, k: nat)
    requires i <= k <= |text|
    ensures |Quote(text[..i])| + (k - i) <= |Quote(text[..k])|
    decreases k - i
  {
    hide QuoteChar;
    if i < k {
      PrefixGrows(text, i, k - 1);
      Grows(text, k - 1);
    }
  }

  lemma StopsOnce(text: string, j: nat, k: nat, max: nat)
    requires Stops(text, j, max) && Stops(text, k, max)
    ensures j == k
  {
  }

  /** Quoting stops with the buffer full exactly for those. */
  lemma FullExactly(name: string, k: nat)
    requires Stops(name, k, QUOTE_SIZE)
    ensures |Quote(name[..k])| == QUOTE_SIZE <==> Unterminated(name)
  {
    hide Quote, QuoteChar;
    if |Quote(name[..k])| == QUOTE_SIZE {
      FullEnd(name, k);
    } else {
      forall j | 2 <= j <= |name|
        ensures !(|Quote(name[..j])| == QUOTE_SIZE && IsPlain(name[j - 2]) && IsPlain(name[j - 1]))
      {
        if |Quote(name[..j])| == QUOTE_SIZE && IsPlain(name[j - 2]) && IsPlain(name[j - 1]) {
          FullStops(name, j);
          StopsOnce(name, j, k, QUOTE_SIZE);
        }
      }
    }
  }

  lemma FullEnd(name: string, k: nat)
    requires Stops(name, k, QUOTE_SIZE) && |Quote(name[..k])| == QUOTE_SIZE
    ensures 2 <= k && IsPlain(name[k - 2]) && IsPlain(name[k - 1])
  {
    hide Quote, QuoteChar;
    NothingQuoted(name);
    assert k != 0;
    assert Fits(name, k - 1, QUOTE_SIZE);
    Grows(name, k - 1);
    QuoteCharLength(name[k - 1]);
    assert |Quote(name[..k - 1])| == QUOTE_SIZE - 1;
    assert k - 1 != 0;
    assert Fits(name, k - 2, QUOTE_SIZE);
  }

  lemma NothingQuoted(name: string)
    ensures Quote(name[..0]) == []
  {
  }

  lemma FullStops(name: string, k: nat)
    requires 2 <= k <= |name| && |Quote(name[..k])| == QUOTE_SIZE && IsPlain(name[k - 2]) && IsPlain(name[k - 1])
    ensures Stops(name, k, QUOTE_SIZE)
  {
    hide Quote, QuoteChar;
    forall i | 0 <= i < k
      ensures Fits(name, i, QUOTE_SIZE)
    {
      PrefixGrows(name, i + 1, k);
    }
    if k < |name| { Grows(name, k); }
  }

  /** A name is written whole exactly if it can be quoted whole; if not, the buffer is nearly full. */
  lemma WrittenPart(name: string, part: string)
    requires Written(name, part)
    ensures if QuotesWhole(name, QUOTE_SIZE) then part == name else |Quote(part)| + 6 >= QUOTE_SIZE
  {
    hide Quote, QuoteChar;
    var k := |part|;
    assert part == name[..k];
    if k < |name| {
      Grows(name, k);
      QuoteCharLength(name[k]);
      NotWhole(name, k, QUOTE_SIZE);
    } else {
      assert part == name;
    }
  }

  ghost predicate AllWritten(names: seq<string>, parts: seq<string>) {
    |parts| == |names| && forall i :: 0 <= i < |names| ==> Written(names[i], parts[i])
  }

  /** strlen of a buffer, or its length if there is no terminator in it. */
  method StrLen(q: array<char>) returns (n: nat)
    ensures n <= q.Length && (n < q.Length ==> q[n] == '\0') && '\0' !in q[..n]
  {
    n := 0;
    while n < q.Length && q[n] != '\0'
      invariant n <= q.Length && '\0' !in q[..n]
    {
      assert q[..n + 1] == q[..n] + [q[n]];
      n := n + 1;
    }
  }

  lemma {:induction false} QuoteHasNoNul(text: string)
    requires '\0' !in text
    ensures '\0' !in Quote(text)
  {
    if text != [] {
      QuoteHasNoNul(text[1..]);
    }
  }

  lemma SameEnd(b: string, n: nat, d: nat)
    requires n <= |b| && d <= |b| && '\0' !in b[..n] && '\0' !in b[..d]
    requires (n < |b| ==> b[n] == '\0') && (d < |b| ==> b[d] == '\0')
    ensures n == d
  {
    assert forall k :: 0 <= k < n ==> b[k] == b[..n][k];
    assert forall k :: 0 <= k < d ==> b[k] == b[..d][k];
  }

  /** Quoting one name and printing the buffer: what is printed, or None if the buffer has no terminator. */
  method QuoteName(name: string) returns (q: Option<string>, ghost part: string)
    requires '\0' !in name
    ensures q.Some? ==> Written(name, part) && q.value == Quote(part)
    ensures q.None? <==> Unterminated(name)
  {
    hide Quote, Unterminated, Stops;
    var buffer := new char[QUOTE_SIZE](_ => '\0');
    var r, k := XmlQuoteText(name, buffer);
    part := name[..k];
    QuoteHasNoNul(part);
    ghost var d := |Quote(part)|;
    var n := StrLen(buffer);
    SameEnd(buffer[..], n, d);
    FullExactly(name, k);
    if n == QUOTE_SIZE {
      return None, part;
    }
    q := Some(buffer[..n]);
  }

  /** DumpCombo: every name that fits is written, quoted, as far as its quoted form fits the buffer; None exactly if a
      quoted form fills the buffer to the end. */
  method DumpCombo(names: seq<string>) returns (f: Option<string>, ghost parts: seq<string>)
    requires forall n :: n in names ==> '\0' !in n
    ensures f.Some? ==> AllWritten(Kept(names), parts) && f.value == History(parts)
    ensures f.None? <==> exists n :: n in Kept(names) && Unterminated(n)
  {
    hide Quote, Items, Item, Written, Unterminated;
    var text := HEADER + ROOT + LIST;
    ghost var start := text;
    parts := [];
    NoItems();
    assert names[..0] == [] && text == start + Items([]);
    for i := 0 to |names|
      invariant text == start + Items(parts) && AllWritten(Kept(names[..i]), parts)
      invariant forall n :: n in Kept(names[..i]) ==> !Unterminated(n)
    {
      var szTmp: string := [];
      KeptNext(names, i);
      if |names[i]| < MAX_PATH {
        szTmp := names[i];
      }
      if szTmp != [] {
        assert names[i] in names;
        var q, part := QuoteName(szTmp);
        if q.None? {
          KeptIn(names, i);
          return None, parts;
        }
        ItemsLast(parts, part);
        assert (start + Items(parts)) + Item(q.value) == start + Items(parts + [part]);
        text, parts := text + Item(q.value), parts + [part];
      }
    }
    assert names[..|names|] == names;
    f := Some(text + END);
  }

  lemma KeptNext(names: seq<string>, i: nat)
    requires i < |names|
    ensures Kept(names[..i + 1]) == Kept(names[..i]) + if names[i] != [] && |names[i]| < MAX_PATH then [names[i]] else []
  {
    assert names[..i + 1][..i] == names[..i];
  }

  lemma {:induction false} KeptIn(names: seq<string>, i: nat)
    requires i < |names| && names[i] != [] && |names[i]| < MAX_PATH
    ensures names[i] in Kept(names)
  {
    var n := |names| - 1;
    if i < n {
      KeptIn(names[..n], i);
    }
  }

  lemma {:induction false} KeptFits(names: seq<string>)
    ensures forall n :: n in Kept(names) ==> n != [] && |n| < MAX_PATH
  {
    if names != [] {
      KeptFits(names[..|names| - 1]);
    }
  }

  lemma NoItems()
    ensures Items([]) == []
  {
  }

  lemma {:induction false} ItemsLast(names: seq<string>, n: string)
    ensures Items(names + [n]) == Items(names) + Item(Quote(n))
  {
    hide Item, Quote;
    var last := Item(Quote(n));
    if names == [] {
      assert names + [n] == [n] && [n][1..] == [];
      assert Items([n]) == last + Items([]) == last;
      assert Items(names) + last == last;
    } else {
      var first := Item(Quote(names[0]));
      ItemsLast(names[1..], n);
      assert (names + [n])[1..] == names[1..] + [n];
      assert Items(names + [n]) == first + (Items(names[1..]) + last);
      Associates(first, Items(names[1..]), last);
    }
  }

  lemma Associates(a: string, b: string, c: string)
    ensures a + (b + c) == (a + b) + c
  {
  }

  /** The texts of all volume elements found from `t` on (reading resumes one character behind each); None if a
      terminator is put behind the buffer. */
  function Texts(t: string): Option<seq<string>>
    requires t != []
    decreases |t|
  {
    match Element(t, NAME)
    case None => Some([])
    case Some(u) => Then(Found(NodeText(u, MAX_PATH)), if |u| > 1 then Texts(u[1..]) else Some([]))
  }

  function Then(first: Option<string>, rest: Option<seq<string>>): Option<seq<string>> {
    if first.None? || rest.None? then None else Some([first.value] + rest.value)
  }

  /** What the buffer holds after XmlGetNodeText. */
  function Found(r: Read): Option<string> {
    match r
    case Refused => Some([])
    case Text(text) => Some(text)
    case Beyond => None
  }

  /** Texts already added, before those still to be read. */
  function Added(added: seq<string>, rest: Option<seq<string>>): Option<seq<string>> {
    if rest.None? then None else Some(added + rest.value)
  }

  lemma AddOne(added: seq<string>, text: string, rest: Option<seq<string>>)
    ensures Added(added, Then(Some(text), rest)) == Added(added + [text], rest)
    ensures Added(added, Some([])) == Some(added) && Added([], rest) == rest
  {
    assert added + [] == added;
    if rest.Some? {
      assert added + ([text] + rest.value) == (added + [text]) + rest.value && [] + rest.value == rest.value;
    }
  }

  /** LoadCombo: one buffer for all names. */
  method LoadCombo(history: string) returns (names: Option<seq<string>>)
    requires history != []
    ensures names == Texts(history)
  {
    hide NodeText, Element, Added, Then;
    var xml := history;
    var volume := new char[MAX_PATH];
    var added: seq<string> := [];
    AddOne([], [], Texts(xml));
    while true
      invariant xml != [] && volume.Length == MAX_PATH && fresh(volume)
      invariant Texts(history) == Added(added, Texts(xml))
      decreases |xml|
    {
      var found := XmlFindElement(xml, NAME);
      AddOne(added, [], None);
      if found.None? {
        return Some(added);
      }
      xml := found.value;
      var r := XmlGetNodeText(xml, volume);
      ghost var rest := if |xml| > 1 then Texts(xml[1..]) else Some([]);
      if r.Beyond? {
        NotRead(added, rest);
        return None;
      }
      var text := if r.Text? then r.text else [];
      AddOne(added, text, rest);
      added := added + [text];
      AddOne(added, [], None);
      if |xml| == 1 {
        return Some(added);
      }
      xml := xml[1..];
    }
  }

  lemma NotRead(added: seq<string>, rest: Option<seq<string>>)
    ensures Added(added, Then(None, rest)) == None
  {
  }

  // ----- The history read back -----

  /** Text in which no node starts. */
  predicate NoNodes(p: string) { forall i :: 0 <= i < |p| && p[i] == '<' ==> i + 1 < |p| && p[i + 1] == '/' }

  lemma {:induction false} SkipText(p: string, t: string)
    requires NoNodes(p)
    ensures NodeFrom(p + t) == NodeFrom(t)
  {
    if p == [] {
      assert p + t == t;
    } else {
      assert (p + t)[1..] == p[1..] + t;
      assert forall i :: 0 <= i < |p[1..]| ==> p[1..][i] == p[i + 1];
      SkipText(p[1..], t);
    }
  }

  function Rest(names: seq<string>): string { Items(names) + END }

  /** The first element of a history that goes on with these names. */
  function FirstOf(names: seq<string>): Option<string> {
    if names == [] then None else Some(Node(Quote(names[0])) + Rest(names[1..]))
  }

  lemma NodeOfRest(names: seq<string>)
    ensures NodeFrom(Rest(names)) == FirstOf(names)
  {
    hide Quote;
    if names == [] {
      assert NoNodes(END);
      SkipText(END, []);
      assert END + [] == END && Rest(names) == END;
    } else {
      var u := Node(Quote(names[0])) + Rest(names[1..]);
      assert Rest(names) == "\n\t\t" + u;
      SkipText("\n\t\t", u);
      assert u[0] == '<' && u[1] == 'v';
    }
  }

  lemma NodeNamed(q: string, t: string)
    ensures Named(Node(q) + t, NAME)
  {
    var u := Node(q) + t;
    assert u[1..7] == NAME && u[1..][..6] == u[1..7] && u[7] == '>';
  }

  /** From a character that starts no volume element, over text without nodes, to the first name. */
  lemma ElementFrom(t: string, x: string, names: seq<string>)
    requires t != [] && t[1..] == x + Rest(names) && NoNodes(x) && !Named(t, NAME)
    ensures Element(t, NAME) == FirstOf(names)
  {
    hide Named;
    SkipText(x, Rest(names));
    NodeOfRest(names);
    if names != [] {
      NodeNamed(Quote(names[0]), Rest(names[1..]));
    }
  }

  lemma Behind(q: string)
    requires '<' !in q
    ensures NoNodes("olume>" + q + "</volume>")
  {
  }

  /** What reading a node gives that a name was quoted into. */
  function ReadOf(name: string): Read {
    if |Quote(name)| > MAX_PATH then Refused else if |name| < MAX_PATH then Text(name) else Beyond
  }

  /** The text of a node is what was quoted into it exactly if the quoted form is no longer than the buffer and the
      name is shorter; a longer quoted form is lost, and a name as long as the buffer leaves no room for its end. */
  lemma NodeReadsBack(name: string, rest: string)
    ensures NodeText(Node(Quote(name)) + rest, MAX_PATH) == ReadOf(name)
    ensures NodeText(Node(Quote(name)) + rest, MAX_PATH) == Text(name) <==> Holdable(name)
  {
    hide Quote, Decoded;
    var q := Quote(name);
    var u := Node(q) + rest;
    QuoteHasNoMarkup(name);
    assert u == "<volume>" + q + ("</volume>" + rest);
    assert u[7] == '>' && forall k :: 0 <= k < 7 ==> u[k] != '>';
    assert Find(u, '>', 0) == 7;
    assert u[8 + |q|] == '<' && forall k :: 1 <= k < 8 + |q| ==> u[k] != '<';
    assert Find(u, '<', 1) == 8 + |q|;
    assert u[8..] == q + ("</volume>" + rest);
    DecodedQuote(name, "</volume>" + rest);
  }

  lemma {:induction false} QuoteRepeat(c: char, n: nat)
    ensures |Quote(Repeat(c, n))| == n * |QuoteChar(c)|
  {
    hide QuoteChar;
    if n > 0 {
      assert Repeat(c, n)[1..] == Repeat(c, n - 1);
      QuoteRepeat(c, n - 1);
      assert n * |QuoteChar(c)| == (n - 1) * |QuoteChar(c)| + |QuoteChar(c)|;
    }
  }

  /** 260 plain characters are not refused and do not fit either. */
  lemma LongestNameOverruns()
    ensures |Quote(Repeat('a', 260))| == MAX_PATH && Texts(History([Repeat('a', 260)])) == None
  {
    hide Quote, Texts, History;
    QuoteRepeat('a', 260);
    QuoteCharLength('a');
    ReadOne(Repeat('a', 260));
  }

  /** 53 ampersands are written whole, but not read. */
  lemma AmpersandsAreLost()
    ensures |Repeat('&', 53)| < MAX_PATH && QuotesWhole(Repeat('&', 53), QUOTE_SIZE)
    ensures Texts(History([Repeat('&', 53)])) == Some([[]])
  {
    hide Quote, Texts, History;
    QuoteRepeat('&', 53);
    QuoteCharLength('&');
    ReadOne(Repeat('&', 53));
    assert [""] + [] == [""];
  }

  /** 66 ampersands and 190 plain characters, 256 in all, fill the buffer of 520. */
  lemma FullBuffer()
    ensures var n := Repeat('&', 66) + Repeat('a', 190); |n| < MAX_PATH && Unterminated(n)
  {
    hide Quote;
    var n := Repeat('&', 66) + Repeat('a', 190);
    QuoteRepeat('&', 66);
    QuoteRepeat('a', 190);
    QuoteCharLength('&');
    QuoteCharLength('a');
    QuoteAppend(Repeat('&', 66), Repeat('a', 190));
    assert n[..256] == n;
  }

  lemma ReadOne(name: string)
    ensures Texts(History([name])) == Then(Found(ReadOf(name)), Some([]))
  {
    hide Quote, Texts, History, ReadOf;
    HistoryIsRead([name]);
    assert [name][1..] == [];
  }

  /** What reading a history with these names gives. */
  function Reads(names: seq<string>): Option<seq<string>> {
    if names == [] then Some([]) else Then(Found(ReadOf(names[0])), Reads(names[1..]))
  }

  lemma {:induction false} TextsFromNode(names: seq<string>)
    requires names != []
    ensures Texts(FirstOf(names).value) == Reads(names)
    decreases |names|
  {
    hide Quote, NodeFrom, Items, ReadOf, NodeText, Holdable;
    var q, rest := Quote(names[0]), Rest(names[1..]);
    var u := Node(q) + rest;
    NodeNamed(q, rest);
    NodeReadsBack(names[0], rest);
    QuoteHasNoMarkup(names[0]);
    Behind(q);
    var t := u[1..];
    assert t[1..] == ("olume>" + q + "</volume>") + rest;
    assert t[1] == 'o';
    NotVolume(t);
    ElementFrom(t, "olume>" + q + "</volume>", names[1..]);
    if |names| > 1 {
      TextsFromNode(names[1..]);
      SameFirst(t, FirstOf(names[1..]).value);
    }
  }

  lemma NotVolume(t: string)
    requires |t| > 1 && t[1] != 'v'
    ensures !Named(t, NAME)
  {
    assert t[1..][0] != NAME[0];
  }

  lemma SameFirst(t: string, u: string)
    requires t != [] && u != [] && Element(t, NAME) == Some(u)
    ensures Texts(t) == Texts(u)
  {
  }

  lemma TextsNone(t: string)
    requires t != []
    ensures Element(t, NAME).None? ==> Texts(t) == Some([])
  {
  }

  /** A node start that begins no volume element leads to the next node. */
  lemma Onward(t: string, x: string, u: string)
    requires t != [] && !Named(t, NAME) && t[1..] == x + u && NoNodes(x) && |u| > 1 && u[0] == '<' && u[1] != '/'
    ensures Element(t, NAME) == Element(u, NAME)
  {
    SkipText(x, u);
  }

  /** The tag of a node that is no volume element, with the text behind it. */
  predicate OtherTag(p: string) { |p| > 1 && p[0] == '<' && p[1] != 'v' && p[1] != '/' && NoNodes(p[1..]) }

  /** Such tags are passed over. */
  lemma PassOver(p: string, u: string)
    requires OtherTag(p) && |u| > 1 && u[0] == '<' && u[1] != '/'
    ensures Element(p + u, NAME) == Element(u, NAME)
  {
    hide NoNodes, Named, NodeFrom, Element;
    var t := p + u;
    assert t[1] == p[1] && t[1..] == p[1..] + u;
    NotVolume(t);
    Onward(t, p[1..], u);
  }

  lemma PassToRest(p: string, names: seq<string>)
    requires OtherTag(p)
    ensures Element(p + Rest(names), NAME) == FirstOf(names)
  {
    hide NoNodes, Named, NodeFrom, Element, FirstOf, Items;
    var t := p + Rest(names);
    assert t[1] == p[1] && t[1..] == p[1..] + Rest(names);
    NotVolume(t);
    ElementFrom(t, p[1..], names);
  }

  lemma VersionTag()
    ensures OtherTag(VERSION) && '<' !in ENCODING
  {
    assert VERSION[1] == '?';
  }

  lemma MoreText(p: string, x: string)
    requires OtherTag(p) && '<' !in x
    ensures OtherTag(p + x)
  {
    assert (p + x)[1..] == p[1..] + x;
  }

  lemma HeaderTag()
    ensures OtherTag(HEADER)
  {
    hide OtherTag;
    VersionTag();
    MoreText(VERSION, ENCODING);
  }

  lemma RootTag()
    ensures OtherTag(ROOT)
  {
    assert ROOT[1] == 'T';
  }

  lemma ListTag()
    ensures OtherTag(LIST)
  {
    assert LIST[1] == 'h';
  }

  lemma Head(names: seq<string>)
    ensures Element(History(names), NAME) == FirstOf(names)
  {
    hide Quote, Items, NodeFrom, Named, Element, FirstOf, NoNodes, History, OtherTag;
    Regroup(names);
    HeaderTag();
    RootTag();
    ListTag();
    Joined(HEADER, ROOT, LIST, names);
  }

  lemma Joined(h: string, r: string, l: string, names: seq<string>)
    requires OtherTag(h) && OtherTag(r) && OtherTag(l)
    ensures Element(h + (r + (l + Rest(names))), NAME) == FirstOf(names)
  {
    hide Quote, Items, NodeFrom, Named, Element, FirstOf, NoNodes;
    var t2 := l + Rest(names);
    PassOver(h, r + t2);
    PassOver(r, t2);
    PassToRest(l, names);
  }

  lemma Regroup(names: seq<string>)
    ensures History(names) == HEADER + (ROOT + (LIST + Rest(names)))
  {
    hide Items;
  }

  lemma HistoryIsRead(names: seq<string>)
    ensures Texts(History(names)) == Reads(names)
  {
    hide Quote, Items, Texts, NodeFrom, Element, Named, History, ReadOf;
    Head(names);
    HistoryStarts(names);
    TextsNone(History(names));
    if names != [] {
      TextsFromNode(names);
      SameFirst(History(names), FirstOf(names).value);
    }
  }

  /** A list is read back exactly if every part is read as its name. */
  lemma {:induction false} ReadsExactly(names: seq<string>, parts: seq<string>)
    requires |names| == |parts|
    ensures Reads(parts) == Some(names) <==> forall i :: 0 <= i < |names| ==> Found(ReadOf(parts[i])) == Some(names[i])
  {
    hide ReadOf, Found;
    if names != [] {
      ReadsExactly(names[1..], parts[1..]);
      assert forall i :: 0 < i < |names| ==> names[1..][i - 1] == names[i] && parts[1..][i - 1] == parts[i];
      assert names == [names[0]] + names[1..];
      Consed(Found(ReadOf(parts[0])), Reads(parts[1..]), names);
    }
  }

  lemma Consed(first: Option<string>, rest: Option<seq<string>>, names: seq<string>)
    requires names != []
    ensures Then(first, rest) == Some(names) <==> first == Some(names[0]) && rest == Some(names[1..])
  {
    assert names == [names[0]] + names[1..];
    if first.Some? && rest.Some? {
      var all := [first.value] + rest.value;
      assert all[0] == first.value && all[1..] == rest.value;
    }
  }

  /** Reading a history gives the names back, all and in order, exactly if each of them can be held. */
  lemma HistoryReadsBack(names: seq<string>)
    requires forall n :: n in names ==> n != []
    ensures Texts(History(names)) == Some(names) <==> forall n :: n in names ==> Holdable(n)
  {
    hide Quote, Texts, History, Reads;
    HistoryIsRead(names);
    ReadsExactly(names, names);
    forall i | 0 <= i < |names|
      ensures Found(ReadOf(names[i])) == Some(names[i]) <==> Holdable(names[i])
    {
      assert names[i] in names;
    }
  }

  /** And DumpCombo followed by LoadCombo gives back the names that were kept exactly if all their quoted forms fit
      the reading buffer, whatever else was cut off in writing. */
  lemma DumpThenLoad(names: seq<string>, parts: seq<string>)
    requires AllWritten(Kept(names), parts)
    ensures Texts(History(parts)) == Some(Kept(names)) <==> forall n :: n in Kept(names) ==> |Quote(n)| <= MAX_PATH
  {
    hide Quote, Texts, History, Reads, QuotesWhole, Written;
    var kept := Kept(names);
    KeptFits(names);
    HistoryIsRead(parts);
    ReadsExactly(kept, parts);
    forall i | 0 <= i < |kept|
      ensures Found(ReadOf(parts[i])) == Some(kept[i]) <==> |Quote(kept[i])| <= MAX_PATH
    {
      assert kept[i] in kept && Written(kept[i], parts[i]);
      WrittenPart(kept[i], parts[i]);
      WholeIfShort(kept[i]);
    }
    assert (forall n :: n in kept ==> |Quote(n)| <= MAX_PATH) <==> forall i :: 0 <= i < |kept| ==> |Quote(kept[i])| <= MAX_PATH;
  }

  lemma WholeIfShort(name: string)
    ensures |Quote(name)| <= MAX_PATH ==> QuotesWhole(name, QUOTE_SIZE)
  {
  }

  lemma HistoryStarts(names: seq<string>)
    ensures History(names) != []
  {
  }
}
