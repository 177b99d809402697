/** The generic XML node that preserves every element the engine does not
    interpret (metadata, waypoints, routes, extensions, unknown point
    children): its rendering as GPX markup, the five-entity escaping, and the
    builder that accumulates a node while a document is scanned. */
module XmlNodes {
  import opened Wrappers
  import opened Seqs
  import opened StringOrder

  datatype XmlNode = XmlNode(
    name: string,
    attributes: map<string, string>,
    text: Option<string>,
    children: seq<XmlNode>)

  // ---------------------------------------------------------------------
  // Escaping

  /** What each character of `s` becomes when every `c` is replaced by `rep`. */
  function Replacements(s: string, c: char, rep: string): (r: seq<string>)
    ensures |r| == |s|
  {
    seq(|s|, i requires 0 <= i < |s| => if s[i] == c then rep else [s[i]])
  }

  /** `replacingOccurrences(of: [c], with: rep)`: every `c` becomes `rep`. */
  function ReplaceChar(s: string, c: char, rep: string): string {
    Concat(Replacements(s, c, rep))
  }

  /** `xmlEscaped()`: five replacement passes, `&` first. */
  function XmlEscaped(s: string): string {
    var amp := ReplaceChar(s, '&', "&amp;");
    var quot := ReplaceChar(amp, '"', "&quot;");
    var apos := ReplaceChar(quot, '\'', "&apos;");
    var lt := ReplaceChar(apos, '<', "&lt;");
    ReplaceChar(lt, '>', "&gt;")
  }

  /** The entity (or the character itself) one character stands for after escaping. */
  function EscapeChar(c: char): string {
    match c
    case '&' => "&amp;"
    case '"' => "&quot;"
    case '\'' => "&apos;"
    case '<' => "&lt;"
    case '>' => "&gt;"
    case _ => [c]
  }

  /** Escaping character by character, in a single pass. */
  function EscapeEach(s: string): string {
    if |s| == 0 then "" else EscapeChar(s[0]) + EscapeEach(s[1..])
  }

  /** What an XML reader makes of the five predefined entities (section 4.6 of
      the XML 1.0 recommendation); every other character stands for itself. */
  function Unescape(s: string): string
    decreases |s|
  {
    if |s| == 0 then ""
    else if s[0] != '&' then [s[0]] + Unescape(s[1..])
    else if StartsWith(s, "&amp;") then "&" + Unescape(s[5..])
    else if StartsWith(s, "&quot;") then "\"" + Unescape(s[6..])
    else if StartsWith(s, "&apos;") then "'" + Unescape(s[6..])
    else if StartsWith(s, "&lt;") then "<" + Unescape(s[4..])
    else if StartsWith(s, "&gt;") then ">" + Unescape(s[4..])
    else [s[0]] + Unescape(s[1..])
  }

  predicate StartsWith(s: string, prefix: string) {
    |prefix| <= |s| && s[..|prefix|] == prefix
  }

  predicate IsMarkup(c: char) {
    c == '<' || c == '>' || c == '"' || c == '\''
  }

  ghost predicate FreeOfMarkup(s: string) {
    forall i :: 0 <= i < |s| ==> !IsMarkup(s[i])
  }

  lemma ReplaceCharAppend(a: string, b: string, c: char, rep: string)
    ensures ReplaceChar(a + b, c, rep) == ReplaceChar(a, c, rep) + ReplaceChar(b, c, rep)
  {
    var ra, rb := Replacements(a, c, rep), Replacements(b, c, rep);
    forall i | 0 <= i < |a + b|
      ensures Replacements(a + b, c, rep)[i] == (ra + rb)[i]
    {
      if i < |a| {
        assert (a + b)[i] == a[i];
      } else {
        assert (a + b)[i] == b[i - |a|];
      }
    }
    assert Replacements(a + b, c, rep) == ra + rb;
    ConcatAppend(ra, rb);
  }

  lemma XmlEscapedAppend(a: string, b: string)
    ensures XmlEscaped(a + b) == XmlEscaped(a) + XmlEscaped(b)
  {
    ReplaceCharAppend(a, b, '&', "&amp;");
    var a1, b1 := ReplaceChar(a, '&', "&amp;"), ReplaceChar(b, '&', "&amp;");
    ReplaceCharAppend(a1, b1, '"', "&quot;");
    var a2, b2 := ReplaceChar(a1, '"', "&quot;"), ReplaceChar(b1, '"', "&quot;");
    ReplaceCharAppend(a2, b2, '\'', "&apos;");
    var a3, b3 := ReplaceChar(a2, '\'', "&apos;"), ReplaceChar(b2, '\'', "&apos;");
    ReplaceCharAppend(a3, b3, '<', "&lt;");
    var a4, b4 := ReplaceChar(a3, '<', "&lt;"), ReplaceChar(b3, '<', "&lt;");
    ReplaceCharAppend(a4, b4, '>', "&gt;");
  }

  lemma {:induction false} ReplaceCharAbsent(s: string, c: char, rep: string)
    requires c !in s
    ensures ReplaceChar(s, c, rep) == s
    decreases |s|
  {
    if |s| > 0 {
      var n := |s| - 1;
      ReplaceCharAbsent(s[..n], c, rep);
      assert Replacements(s, c, rep)[..n] == Replacements(s[..n], c, rep);
      assert s == s[..n] + [s[n]];
    }
  }

  lemma ReplaceCharOne(x: char, c: char, rep: string)
    ensures ReplaceChar([x], c, rep) == if x == c then rep else [x]
  {
    assert Replacements([x], c, rep) == [if x == c then rep else [x]];
    ConcatSnoc([], if x == c then rep else [x]);
  }

  /** A string none of whose characters is escaped passes through all five passes. */
  lemma XmlEscapedPlain(s: string)
    requires '&' !in s && '"' !in s && '\'' !in s && '<' !in s && '>' !in s
    ensures XmlEscaped(s) == s
  {
    ReplaceCharAbsent(s, '&', "&amp;");
    ReplaceCharAbsent(s, '"', "&quot;");
    ReplaceCharAbsent(s, '\'', "&apos;");
    ReplaceCharAbsent(s, '<', "&lt;");
    ReplaceCharAbsent(s, '>', "&gt;");
  }

  lemma XmlEscapedAmp(c: char)
    requires c == '&'
    ensures XmlEscaped([c]) == "&amp;"
  {
    ReplaceCharOne(c, '&', "&amp;");
    var r1 := ReplaceChar([c], '&', "&amp;");
    assert r1 == "&amp;";
    assert r1 == ['&', 'a', 'm', 'p', ';'];
    assert '"' !in r1 && '\'' !in r1 && '<' !in r1 && '>' !in r1;
    ReplaceCharAbsent(r1, '"', "&quot;");
    var r2 := ReplaceChar(r1, '"', "&quot;");
    assert r2 == r1;
    ReplaceCharAbsent(r2, '\'', "&apos;");
    var r3 := ReplaceChar(r2, '\'', "&apos;");
    assert r3 == r1;
    ReplaceCharAbsent(r3, '<', "&lt;");
    var r4 := ReplaceChar(r3, '<', "&lt;");
    assert r4 == r1;
    ReplaceCharAbsent(r4, '>', "&gt;");
  }

  lemma XmlEscapedQuot(c: char)
    requires c == '"'
    ensures XmlEscaped([c]) == "&quot;"
  {
    ReplaceCharOne(c, '&', "&amp;");
    var r1 := ReplaceChar([c], '&', "&amp;");
    assert r1 == [c];
    ReplaceCharOne(c, '"', "&quot;");
    var r2 := ReplaceChar(r1, '"', "&quot;");
    assert r2 == "&quot;";
    assert r2 == ['&', 'q', 'u', 'o', 't', ';'];
    assert '\'' !in r2 && '<' !in r2 && '>' !in r2;
    ReplaceCharAbsent(r2, '\'', "&apos;");
    var r3 := ReplaceChar(r2, '\'', "&apos;");
    assert r3 == r2;
    ReplaceCharAbsent(r3, '<', "&lt;");
    var r4 := ReplaceChar(r3, '<', "&lt;");
    assert r4 == r2;
    ReplaceCharAbsent(r4, '>', "&gt;");
  }

  lemma XmlEscapedApos(c: char)
    requires c == '\''
    ensures XmlEscaped([c]) == "&apos;"
  {
    ReplaceCharOne(c, '&', "&amp;");
    var r1 := ReplaceChar([c], '&', "&amp;");
    assert r1 == [c];
    ReplaceCharOne(c, '"', "&quot;");
    var r2 := ReplaceChar(r1, '"', "&quot;");
    assert r2 == [c];
    ReplaceCharOne(c, '\'', "&apos;");
    var r3 := ReplaceChar(r2, '\'', "&apos;");
    assert r3 == "&apos;";
    assert r3 == ['&', 'a', 'p', 'o', 's', ';'];
    assert '<' !in r3 && '>' !in r3;
    ReplaceCharAbsent(r3, '<', "&lt;");
    var r4 := ReplaceChar(r3, '<', "&lt;");
    assert r4 == r3;
    ReplaceCharAbsent(r4, '>', "&gt;");
  }

  lemma XmlEscapedLt(c: char)
    requires c == '<'
    ensures XmlEscaped([c]) == "&lt;"
  {
    ReplaceCharOne(c, '&', "&amp;");
    var r1 := ReplaceChar([c], '&', "&amp;");
    assert r1 == [c];
    ReplaceCharOne(c, '"', "&quot;");
    var r2 := ReplaceChar(r1, '"', "&quot;");
    assert r2 == [c];
    ReplaceCharOne(c, '\'', "&apos;");
    var r3 := ReplaceChar(r2, '\'', "&apos;");
    assert r3 == [c];
    ReplaceCharOne(c, '<', "&lt;");
    var r4 := ReplaceChar(r3, '<', "&lt;");
    assert r4 == "&lt;";
    assert r4 == ['&', 'l', 't', ';'];
    assert '>' !in r4;
    ReplaceCharAbsent(r4, '>', "&gt;");
  }

  lemma XmlEscapedGt(c: char)
    requires c == '>'
    ensures XmlEscaped([c]) == "&gt;"
  {
    ReplaceCharOne(c, '&', "&amp;");
    var r1 := ReplaceChar([c], '&', "&amp;");
    assert r1 == [c];
    ReplaceCharOne(c, '"', "&quot;");
    var r2 := ReplaceChar(r1, '"', "&quot;");
    assert r2 == [c];
    ReplaceCharOne(c, '\'', "&apos;");
    var r3 := ReplaceChar(r2, '\'', "&apos;");
    assert r3 == [c];
    ReplaceCharOne(c, '<', "&lt;");
    var r4 := ReplaceChar(r3, '<', "&lt;");
    assert r4 == [c];
    ReplaceCharOne(c, '>', "&gt;");
    var r5 := ReplaceChar(r4, '>', "&gt;");
    assert r5 == "&gt;";
  }

  lemma XmlEscapedChar(c: char)
    ensures XmlEscaped([c]) == EscapeChar(c)
  {
    match c
    case '&' => XmlEscapedAmp(c);
    case '"' => XmlEscapedQuot(c);
    case '\'' => XmlEscapedApos(c);
    case '<' => XmlEscapedLt(c);
    case '>' => XmlEscapedGt(c);
    case _ => XmlEscapedPlain([c]);
  }

  /** The five passes, `&` first, amount to one pass that escapes each
      character once: no entity produced by an earlier pass is escaped again. */
  lemma {:induction false} XmlEscapedIsSinglePass(s: string)
    ensures XmlEscaped(s) == EscapeEach(s)
  {
    if |s| > 0 {
      assert s == [s[0]] + s[1..];
      XmlEscapedAppend([s[0]], s[1..]);
      XmlEscapedChar(s[0]);
      XmlEscapedIsSinglePass(s[1..]);
    }
  }

  lemma {:induction false} EscapeEachFreeOfMarkup(s: string)
    ensures FreeOfMarkup(EscapeEach(s))
  {
    if |s| > 0 {
      EscapeEachFreeOfMarkup(s[1..]);
      var e := EscapeChar(s[0]);
      assert FreeOfMarkup(e);
      assert EscapeEach(s) == e + EscapeEach(s[1..]);
    }
  }

  /** Escaped text contains none of `<`, `>`, `"`, `'`. */
  lemma XmlEscapedFreeOfMarkup(s: string)
    ensures FreeOfMarkup(XmlEscaped(s))
  {
    XmlEscapedIsSinglePass(s);
    EscapeEachFreeOfMarkup(s);
  }

  /** Escaping leaves line breaks alone: the escaped text holds a newline
      exactly when the original does. */
  lemma {:induction false} EscapeEachNewlines(s: string)
    ensures '\n' in EscapeEach(s) <==> '\n' in s
  {
    if |s| > 0 {
      EscapeEachNewlines(s[1..]);
      assert s == [s[0]] + s[1..];
      assert '\n' in EscapeChar(s[0]) <==> s[0] == '\n';
    }
  }

  lemma XmlEscapedNewlines(s: string)
    ensures '\n' in XmlEscaped(s) <==> '\n' in s
  {
    XmlEscapedIsSinglePass(s);
    EscapeEachNewlines(s);
  }

  lemma UnescapeAmp(rest: string)
    ensures Unescape("&amp;" + rest) == "&" + Unescape(rest)
  {
    var s := "&amp;" + rest;
    assert s[..5] == "&amp;" && s[5..] == rest;
  }

  lemma UnescapeQuot(rest: string)
    ensures Unescape("&quot;" + rest) == "\"" + Unescape(rest)
  {
    var s := "&quot;" + rest;
    assert s[..5][1] == 'q';
    assert s[..6] == "&quot;" && s[6..] == rest;
  }

  lemma UnescapeApos(rest: string)
    ensures Unescape("&apos;" + rest) == "'" + Unescape(rest)
  {
    var s := "&apos;" + rest;
    assert s[..5][2] == 'p';
    assert s[..6][1] == 'a';
    assert s[..6] == "&apos;" && s[6..] == rest;
  }

  lemma UnescapeLt(rest: string)
    ensures Unescape("&lt;" + rest) == "<" + Unescape(rest)
  {
    var s := "&lt;" + rest;
    assert |s| < 5 || s[..5][1] == 'l';
    assert |s| < 6 || s[..6][1] == 'l';
    assert s[..4] == "&lt;" && s[4..] == rest;
  }

  lemma UnescapeGt(rest: string)
    ensures Unescape("&gt;" + rest) == ">" + Unescape(rest)
  {
    var s := "&gt;" + rest;
    assert |s| < 5 || s[..5][1] == 'g';
    assert |s| < 6 || s[..6][1] == 'g';
    assert s[..4][1] == 'g';
    assert s[..4] == "&gt;" && s[4..] == rest;
  }

  lemma UnescapeEscapeChar(c: char, rest: string)
    ensures Unescape(EscapeChar(c) + rest) == [c] + Unescape(rest)
  {
    match c
    case '&' => UnescapeAmp(rest);
    case '"' => UnescapeQuot(rest);
    case '\'' => UnescapeApos(rest);
    case '<' => UnescapeLt(rest);
    case '>' => UnescapeGt(rest);
    case _ =>
      var s := [c] + rest;
      assert s[0] == c && s[1..] == rest;
  }

  /** Reading escaped text back gives the original text: escaping loses nothing. */
  lemma {:induction false} UnescapeXmlEscaped(s: string)
    ensures Unescape(XmlEscaped(s)) == s
  {
    XmlEscapedIsSinglePass(s);
    UnescapeEscapeEach(s);
  }

  lemma {:induction false} UnescapeEscapeEach(s: string)
    ensures Unescape(EscapeEach(s)) == s
  {
    if |s| > 0 {
      UnescapeEscapeChar(s[0], EscapeEach(s[1..]));
      UnescapeEscapeEach(s[1..]);
    }
  }

  // ---------------------------------------------------------------------
  // Attributes

  /** One ` key="escaped value"` entry. */
  function AttributeEntry(key: string, value: string): string {
    " " + key + "=\"" + XmlEscaped(value) + "\""
  }

  /** The entries of `m` for the listed keys, in the order listed. */
  function Entries(keys: seq<string>, m: map<string, string>): (r: seq<string>)
    requires forall i :: 0 <= i < |keys| ==> keys[i] in m
  {
    seq(|keys|, i requires 0 <= i < |keys| => AttributeEntry(keys[i], m[keys[i]]))
  }

  /** `attributes.sorted { $0.key < $1.key }.map { … }.joined()`. */
  function AttributeText(m: map<string, string>): string {
    SortedKeysOrders(m);
    Concat(Entries(SortedKeys(m), m))
  }

  /** The attribute text lists every attribute exactly once, keys strictly
      increasing, each value escaped. */
  lemma AttributeTextSorted(m: map<string, string>)
    ensures exists keys: seq<string> ::
      && |keys| == |m|
      && (forall k :: k in m <==> k in keys)
      && StrictlyIncreasing(keys)
      && (forall i :: 0 <= i < |keys| ==> keys[i] in m)
      && AttributeText(m) == Concat(Entries(keys, m))
  {
    var keys := SortedKeys(m);
    SortedKeysOrders(m);
    assert AttributeText(m) == Concat(Entries(keys, m));
  }

  // ---------------------------------------------------------------------
  // Rendering

  function Indent(level: nat): (r: string)
    ensures |r| == level && forall i :: 0 <= i < level ==> r[i] == '\t'
  {
    seq(level, _ => '\t')
  }

  /** `render(indentation:)`: a leaf without text is one self-closing line;
      a node with children opens a line, renders every child one level deeper
      and closes at its own indentation; otherwise the escaped text sits
      between the tags on one line. */
  function Render(n: XmlNode, indentation: nat): (r: string)
    ensures |r| > 0 && r[|r| - 1] == '\n'
    decreases n
  {
    var indent := Indent(indentation);
    var open := OpenTag(n, indentation);
    if n.children == [] && (n.text == None || n.text == Some("")) then
      open + "/>\n"
    else if n.children != [] then
      open + ">\n"
        + RenderAll(n.children, indentation + 1)
        + indent + "</" + n.name + ">\n"
    else
      match n.text
      case Some(t) => open + ">" + XmlEscaped(t) + "</" + n.name + ">\n"
      case None => open + ">" + "</" + n.name + ">\n"
  }

  /** The children one after another, all at the same indentation. */
  function RenderAll(children: seq<XmlNode>, indentation: nat): string
    decreases children
  {
    if children == [] then "" else Render(children[0], indentation) + RenderAll(children[1..], indentation)
  }

  /** The opening of a node's first line: indentation, `<`, name, attributes. */
  function OpenTag(n: XmlNode, indentation: nat): string {
    Indent(indentation) + "<" + n.name + AttributeText(n.attributes)
  }

  /** Rendering the children one after another extends by one child at the end. */
  lemma {:induction false} RenderAllSnoc(children: seq<XmlNode>, last: XmlNode, indentation: nat)
    ensures RenderAll(children + [last], indentation) == RenderAll(children, indentation) + Render(last, indentation)
    decreases |children|
  {
    if children == [] {
      assert [last][1..] == [];
    } else {
      assert (children + [last])[1..] == children[1..] + [last];
      RenderAllSnoc(children[1..], last, indentation);
    }
  }

  /** No line break in the name, in any attribute key or value, or in the text. */
  ghost predicate SingleLineContent(n: XmlNode) {
    && '\n' !in n.name
    && (forall k :: k in n.attributes ==> '\n' !in k && '\n' !in n.attributes[k])
    && (n.text.Some? ==> '\n' !in n.text.value)
  }

  /** The attribute text holds a line break only if a key or a value does. */
  lemma AttributeTextNewlines(m: map<string, string>)
    requires forall k :: k in m ==> '\n' !in k && '\n' !in m[k]
    ensures '\n' !in AttributeText(m)
  {
    SortedKeysOrders(m);
    var keys := SortedKeys(m);
    var entries := Entries(keys, m);
    forall i | 0 <= i < |entries|
      ensures '\n' !in entries[i]
    {
      assert keys[i] in m;
      XmlEscapedNewlines(m[keys[i]]);
    }
    ConcatFreeOf(entries, '\n');
  }

  // ---------------------------------------------------------------------
  // Builder

  /** The state of a `GPXXMLNode.Builder`: fixed name, attributes, the text
      fragments received so far and the children closed so far. */
  datatype NodeBuilder = NodeBuilder(
    name: string,
    attributes: map<string, string>,
    textFragments: seq<string>,
    children: seq<XmlNode>)
  {
    /** No empty fragment is ever stored. */
    ghost predicate Valid() {
      forall i :: 0 <= i < |textFragments| ==> textFragments[i] != ""
    }

    /** `append(text:)`: the empty string is ignored. */
    function AppendText(text: string): (b: NodeBuilder)
      ensures b.name == name && b.attributes == attributes && b.children == children
      ensures text == "" ==> b.textFragments == textFragments
      ensures text != "" ==> b.textFragments == textFragments + [text]
      ensures Valid() ==> b.Valid()
    {
      if text == "" then this else this.(textFragments := textFragments + [text])
    }

    /** `append(child:)`. */
    function AppendChild(child: XmlNode): (b: NodeBuilder)
      ensures b.name == name && b.attributes == attributes && b.textFragments == textFragments
      ensures b.children == children + [child]
      ensures Valid() ==> b.Valid()
    {
      this.(children := children + [child])
    }

    /** `build()`: the text is the joined fragments, or nil when that is empty. */
    function Build(): (n: XmlNode)
      ensures n.name == name && n.attributes == attributes && n.children == children
      ensures n.text.Some? ==> n.text.value == Concat(textFragments) && n.text.value != ""
      ensures Valid() ==> (n.text.None? <==> textFragments == [])
    {
      ConcatEmptyIff(textFragments);
      var combined := Concat(textFragments);
      XmlNode(name, attributes, if combined == "" then None else Some(combined), children)
    }
  }

  function NewBuilder(name: string, attributes: map<string, string>): NodeBuilder {
    NodeBuilder(name, attributes, [], [])
  }

  /** Feeding the text pieces `texts` one by one. */
  function AppendTexts(b: NodeBuilder, texts: seq<string>): NodeBuilder
    decreases |texts|
  {
    if |texts| == 0 then b else AppendTexts(b, texts[..|texts| - 1]).AppendText(texts[|texts| - 1])
  }

  lemma {:induction false} AppendTextsConcat(b: NodeBuilder, texts: seq<string>)
    ensures Concat(AppendTexts(b, texts).textFragments) == Concat(b.textFragments) + Concat(texts)
    ensures AppendTexts(b, texts).children == b.children
    ensures AppendTexts(b, texts).name == b.name && AppendTexts(b, texts).attributes == b.attributes
    ensures b.Valid() ==> AppendTexts(b, texts).Valid()
    decreases |texts|
  {
    if |texts| > 0 {
      var init, t := texts[..|texts| - 1], texts[|texts| - 1];
      AppendTextsConcat(b, init);
      var prev := AppendTexts(b, init);
      assert AppendTexts(b, texts) == prev.AppendText(t);
      assert Concat(texts) == Concat(init) + t;
      if t != "" {
        ConcatSnoc(prev.textFragments, t);
      }
    }
  }

  /** Whatever text pieces arrive, the built node's text is their
      concatenation in arrival order, or nil when that is empty. */
  lemma BuildConcatenatesText(name: string, attributes: map<string, string>, texts: seq<string>)
    ensures var n := AppendTexts(NewBuilder(name, attributes), texts).Build();
      && n.name == name && n.attributes == attributes && n.children == []
      && n.text == (if Concat(texts) == "" then None else Some(Concat(texts)))
  {
    var b := AppendTexts(NewBuilder(name, attributes), texts);
    AppendTextsConcat(NewBuilder(name, attributes), texts);
    assert Concat(b.textFragments) == Concat(texts);
    ConcatEmptyIff(b.textFragments);
  }

  /** `GPXXMLNode.Builder`, the mutable builder class. */
  class Builder {
    const name: string
    var attributes: map<string, string>
    var textFragments: seq<string>
    var children: seq<XmlNode>

    function Value(): NodeBuilder
      reads this
    {
      NodeBuilder(name, attributes, textFragments, children)
    }

    constructor (name: string, attributes: map<string, string>)
      ensures Value() == NewBuilder(name, attributes)
    {
      this.name := name;
      this.attributes := attributes;
      textFragments := [];
      children := [];
    }

    method AppendText(text: string)
      modifies this
      ensures Value() == old(Value()).AppendText(text)
    {
      if text != "" {
        textFragments := textFragments + [text];
      }
    }

    method AppendChild(child: XmlNode)
      modifies this
      ensures Value() == old(Value()).AppendChild(child)
    {
      children := children + [child];
    }

    function Build(): (n: XmlNode)
      reads this
      ensures n == Value().Build()
    {
      var combined := Concat(textFragments);
      XmlNode(name, attributes, if combined == "" then None else Some(combined), children)
    }
  }
}
