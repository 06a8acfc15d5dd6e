/** server/src/ui-branding.ts: rewriting two marked blocks of the index page.

    Only the text between a start and an end marker is replaced. The markers are comments, and nothing that is
    ever put between them can hold or complete one. */
module UiBranding {
  import opened Text

  function Marker(name: string): string {
    "<!" + ("-- PAPERCLIP_" + name + " -->")
  }

  const FAVICON_START := Marker("FAVICON_START")
  const FAVICON_END := Marker("FAVICON_END")
  const RUNTIME_START := Marker("RUNTIME_BRANDING_START")
  const RUNTIME_END := Marker("RUNTIME_BRANDING_END")

  /** The branding of a worktree instance; the strings are arbitrary. */
  datatype Branding = Branding(enabled: bool, name: Option<string>, color: Option<string>, textColor: Option<string>,
                               faviconHref: Option<string>, instanceId: Option<string>)

  // ---------- attribute values ----------

  function EscapeHtmlAttribute(value: string): string {
    ReplaceChar(ReplaceChar(ReplaceChar(ReplaceChar(value, '&', "&amp;"), '"', "&quot;"), '<', "&lt;"), '>', "&gt;")
  }

  function EscapedChar(c: char): string {
    if c == '&' then "&amp;"
    else if c == '"' then "&quot;"
    else if c == '<' then "&lt;"
    else if c == '>' then "&gt;"
    else [c]
  }

  lemma EscapeConcat(a: string, b: string)
    ensures EscapeHtmlAttribute(a + b) == EscapeHtmlAttribute(a) + EscapeHtmlAttribute(b)
  {
    var a1, b1 := ReplaceChar(a, '&', "&amp;"), ReplaceChar(b, '&', "&amp;");
    var a2, b2 := ReplaceChar(a1, '"', "&quot;"), ReplaceChar(b1, '"', "&quot;");
    ReplaceCharConcat(a, b, '&', "&amp;");
    ReplaceCharConcat(a1, b1, '"', "&quot;");
    ReplaceCharConcat(a2, b2, '<', "&lt;");
    ReplaceCharConcat(ReplaceChar(a2, '<', "&lt;"), ReplaceChar(b2, '<', "&lt;"), '>', "&gt;");
  }

  /** The later passes leave what the earlier ones put down alone. */
  lemma LaterPasses(s: string)
    ensures '>' !in s ==> ReplaceChar(s, '>', "&gt;") == s
    ensures '<' !in s && '>' !in s ==> ReplaceChar(ReplaceChar(s, '<', "&lt;"), '>', "&gt;") == s
    ensures '"' !in s && '<' !in s && '>' !in s ==>
              ReplaceChar(ReplaceChar(ReplaceChar(s, '"', "&quot;"), '<', "&lt;"), '>', "&gt;") == s
  {
    if '>' !in s {
      ReplaceNone(s, '>', "&gt;");
      if '<' !in s {
        ReplaceNone(s, '<', "&lt;");
        if '"' !in s {
          ReplaceNone(s, '"', "&quot;");
        }
      }
    }
  }

  lemma AfterFirstPass(c: char, esc: string)
    requires ReplaceChar([c], '&', "&amp;") == esc && '"' !in esc && '<' !in esc && '>' !in esc
    ensures EscapeHtmlAttribute([c]) == esc
  {
    LaterPasses(esc);
  }

  lemma EscapeFirst(c: char)
    requires c == '&'
    ensures EscapeHtmlAttribute([c]) == EscapedChar(c)
  {
    ReplaceOne(c, '&', "&amp;");
    AfterFirstPass(c, "&amp;");
  }

  lemma EscapeSecond(c: char)
    requires c == '"'
    ensures EscapeHtmlAttribute([c]) == EscapedChar(c)
  {
    ReplaceOne(c, '&', "&amp;");
    ReplaceOne(c, '"', "&quot;");
    LaterPasses("&quot;");
  }

  lemma EscapeThird(c: char)
    requires c != '&' && c != '"'
    ensures EscapeHtmlAttribute([c]) == EscapedChar(c)
  {
    ReplaceOne(c, '&', "&amp;");
    ReplaceOne(c, '"', "&quot;");
    ReplaceOne(c, '<', "&lt;");
    if c == '<' {
      LaterPasses("&lt;");
    } else {
      ReplaceOne(c, '>', "&gt;");
    }
  }

  lemma EscapeOne(c: char)
    ensures EscapeHtmlAttribute([c]) == EscapedChar(c)
  {
    if c == '&' {
      EscapeFirst(c);
    } else if c == '"' {
      EscapeSecond(c);
    } else {
      EscapeThird(c);
    }
  }

  /** Together the four passes escape character by character. */
  lemma EscapeCons(c: char, rest: string)
    ensures EscapeHtmlAttribute([c] + rest) == EscapedChar(c) + EscapeHtmlAttribute(rest)
  {
    EscapeConcat([c], rest);
    EscapeOne(c);
  }

  lemma ReplaceOne(c: char, target: char, esc: string)
    ensures ReplaceChar([c], target, esc) == if c == target then esc else [c]
  {
    assert [c][1..] == "";
    assert esc + "" == esc;
  }

  lemma {:induction false} ReplaceNone(s: string, target: char, esc: string)
    requires target !in s
    ensures ReplaceChar(s, target, esc) == s
  {
    if s != "" {
      ReplaceNone(s[1..], target, esc);
      assert s == [s[0]] + s[1..];
    }
  }

  datatype Attribute = Attribute(value: string, rest: string)

  /** How an HTML parser reads a double-quoted attribute value: up to the quote, character references resolved.
      None stands for input that ends inside the value or holds an unescaped angle bracket or reference. */
  function ReadAttribute(s: string): Option<Attribute>
    decreases |s|
  {
    if s == "" || s[0] == '<' || s[0] == '>' then None
    else if s[0] == '"' then Some(Attribute("", s[1..]))
    else if s[0] != '&' then Consed(s[0], ReadAttribute(s[1..]))
    else if StartsWith(s, "&amp;") then Consed('&', ReadAttribute(s[5..]))
    else if StartsWith(s, "&quot;") then Consed('"', ReadAttribute(s[6..]))
    else if StartsWith(s, "&lt;") then Consed('<', ReadAttribute(s[4..]))
    else if StartsWith(s, "&gt;") then Consed('>', ReadAttribute(s[4..]))
    else None
  }

  function Consed(c: char, a: Option<Attribute>): Option<Attribute> {
    match a
    case None => None
    case Some(Attribute(value, rest)) => Some(Attribute([c] + value, rest))
  }

  lemma ReadEscapedChar(c: char, tail: string)
    ensures ReadAttribute(EscapedChar(c) + tail) == Consed(c, ReadAttribute(tail))
  {
    var e := EscapedChar(c);
    var s := e + tail;
    assert s[..|e|] == e && s[|e|..] == tail && e <= s;
    assert s[0] == e[0];
    if c == '"' || c == '<' || c == '>' {
      assert s[1] == e[1];
    }
  }

  /** An escaped value, closed by its quote, reads back as the value; it cannot end the attribute early. */
  lemma {:induction false} EscapedAttributeReadsBack(value: string, rest: string)
    ensures ReadAttribute(EscapeHtmlAttribute(value) + "\"" + rest) == Some(Attribute(value, rest))
  {
    if value == "" {
      assert EscapeHtmlAttribute(value) + "\"" + rest == ['"'] + rest;
      assert (['"'] + rest)[1..] == rest;
    } else {
      var tail := EscapeHtmlAttribute(value[1..]) + "\"" + rest;
      EscapedAttributeReadsBack(value[1..], rest);
      assert value == [value[0]] + value[1..];
      EscapeCons(value[0], value[1..]);
      assert EscapeHtmlAttribute(value) + "\"" + rest == EscapedChar(value[0]) + tail;
      ReadEscapedChar(value[0], tail);
    }
  }

  lemma {:induction false} EscapedHasNoAngle(value: string)
    ensures '<' !in EscapeHtmlAttribute(value)
  {
    if value != "" {
      EscapedHasNoAngle(value[1..]);
      assert value == [value[0]] + value[1..];
      EscapeCons(value[0], value[1..]);
    }
  }

  // ---------- rendering ----------

  datatype Attr = Attr(name: string, text: string)

  function Attributes(attrs: seq<Attr>): string {
    if attrs == [] then ""
    else " " + attrs[0].name + "=\"" + attrs[0].text + "\"" + Attributes(attrs[1..])
  }

  datatype Element = Element(name: string, attrs: seq<Attr>)

  function Tag(e: Element): string {
    "<" + (e.name + Attributes(e.attrs) + " />")
  }

  function Tags(es: seq<Element>): seq<string> {
    if es == [] then [] else [Tag(es[0])] + Tags(es[1..])
  }

  const ICON := Attr("rel", "icon")
  const SVG := Attr("type", "image/svg+xml")
  const PNG := Attr("type", "image/png")

  const DEFAULT_FAVICON_LINKS: seq<Element> := [
    Element("link", [ICON, Attr("href", "/favicon.ico"), Attr("sizes", "48x48")]),
    Element("link", [ICON, Attr("href", "/favicon.svg"), SVG]),
    Element("link", [ICON, PNG, Attr("sizes", "32x32"), Attr("href", "/favicon-32x32.png")]),
    Element("link", [ICON, PNG, Attr("sizes", "16x16"), Attr("href", "/favicon-16x16.png")])]

  function FaviconLinks(b: Branding): seq<Element> {
    if !b.enabled || Blank(b.faviconHref) then DEFAULT_FAVICON_LINKS
    else
      var href := Attr("href", EscapeHtmlAttribute(b.faviconHref.value));
      [Element("link", [ICON, href, SVG, Attr("sizes", "any")]),
       Element("link", [Attr("rel", "shortcut icon"), href, SVG])]
  }

  function RenderFaviconLinks(b: Branding): string {
    Join(Tags(FaviconLinks(b)), '\n')
  }

  function Meta(name: string, content: string): Element {
    Element("meta", [Attr("name", name), Attr("content", EscapeHtmlAttribute(content))])
  }

  predicate Blank(s: Option<string>) {
    s.None? || s.value == ""
  }

  function RuntimeBrandingTags(b: Branding): seq<Element> {
    if !b.enabled || Blank(b.name) || Blank(b.color) || Blank(b.textColor) then []
    else
      [Element("meta", [Attr("name", "paperclip-worktree-enabled"), Attr("content", "true")]),
       Meta("paperclip-worktree-name", b.name.value),
       Meta("paperclip-worktree-color", b.color.value),
       Meta("paperclip-worktree-text-color", b.textColor.value)]
      + if Blank(b.instanceId) then [] else [Meta("paperclip-instance-id", b.instanceId.value)]
  }

  function RenderRuntimeBrandingMeta(b: Branding): string {
    Join(Tags(RuntimeBrandingTags(b)), '\n')
  }

  function IndentLines(lines: seq<string>): seq<string> {
    if lines == [] then [] else ["    " + lines[0]] + IndentLines(lines[1..])
  }

  function IndentedContent(content: string): string {
    if content != "" then "\n" + Join(IndentLines(Split(content, '\n')), '\n') + "\n    " else "\n    "
  }

  /** The block between the first start marker and the first end marker filled with this text. */
  function FillMarkedBlock(html: string, startMarker: string, endMarker: string, ind: string): string {
    var start, end := IndexOf(html, startMarker), IndexOf(html, endMarker);
    if start == -1 || end == -1 || end < start then html
    else html[..start + |startMarker|] + ind + html[end..]
  }

  function ReplaceMarkedBlock(html: string, startMarker: string, endMarker: string, content: string): string {
    FillMarkedBlock(html, startMarker, endMarker, IndentedContent(content))
  }

  function ApplyUiBranding(html: string, b: Branding): string {
    var withFavicon := ReplaceMarkedBlock(html, FAVICON_START, FAVICON_END, RenderFaviconLinks(b));
    ReplaceMarkedBlock(withFavicon, RUNTIME_START, RUNTIME_END, RenderRuntimeBrandingMeta(b))
  }

  // ---------- what goes between the markers ----------

  /** Text in which every angle bracket opens a tag whose name begins with a letter other than an exclamation. */
  predicate Tame(s: string) {
    forall k :: 0 <= k < |s| && s[k] == '<' ==> k + 1 < |s| && s[k + 1] != '!' && s[k + 1] != '\n'
  }

  lemma TameConcat(a: string, b: string)
    requires Tame(a) && Tame(b)
    ensures Tame(a + b)
  {
  }

  lemma NoAngleTame(s: string)
    requires '<' !in s
    ensures Tame(s)
  {
  }

  predicate NoAngle(a: Attr) {
    '<' !in a.name && '<' !in a.text
  }

  lemma {:induction false} AttributesNoAngle(attrs: seq<Attr>)
    requires forall k :: 0 <= k < |attrs| ==> NoAngle(attrs[k])
    ensures '<' !in Attributes(attrs)
  {
    if attrs != [] {
      AttributesNoAngle(attrs[1..]);
      assert NoAngle(attrs[0]);
    }
  }

  predicate Clean(e: Element) {
    (e.name == "link" || e.name == "meta") && forall k :: 0 <= k < |e.attrs| ==> NoAngle(e.attrs[k])
  }

  lemma TagTame(e: Element)
    requires Clean(e)
    ensures Tame(Tag(e))
  {
    AttributesNoAngle(e.attrs);
    var body := e.name + Attributes(e.attrs) + " />";
    assert '<' !in body && body[0] == e.name[0];
    assert forall k :: 0 < k < |"<" + body| ==> ("<" + body)[k] == body[k - 1];
  }

  lemma {:induction false} TagsTame(es: seq<Element>)
    requires forall k :: 0 <= k < |es| ==> Clean(es[k])
    ensures forall k :: 0 <= k < |Tags(es)| ==> Tame(Tags(es)[k])
  {
    if es != [] {
      TagsTame(es[1..]);
      TagTame(es[0]);
    }
  }

  lemma CommonAttrs()
    ensures NoAngle(ICON) && NoAngle(SVG) && NoAngle(PNG)
  {
  }

  lemma LinkAttrs()
    ensures NoAngle(Attr("sizes", "48x48")) && NoAngle(Attr("sizes", "32x32")) && NoAngle(Attr("sizes", "16x16"))
    ensures NoAngle(Attr("sizes", "any")) && NoAngle(Attr("rel", "shortcut icon"))
  {
  }

  lemma HrefAttrs()
    ensures NoAngle(Attr("href", "/favicon.ico")) && NoAngle(Attr("href", "/favicon.svg"))
    ensures NoAngle(Attr("href", "/favicon-32x32.png")) && NoAngle(Attr("href", "/favicon-16x16.png"))
  {
  }

  lemma DefaultLinksClean()
    ensures forall k :: 0 <= k < |DEFAULT_FAVICON_LINKS| ==> Clean(DEFAULT_FAVICON_LINKS[k])
  {
    CommonAttrs();
    LinkAttrs();
    HrefAttrs();
  }

  lemma BrandedLinksClean(b: Branding)
    requires b.enabled && !Blank(b.faviconHref)
    ensures forall k :: 0 <= k < |FaviconLinks(b)| ==> Clean(FaviconLinks(b)[k])
  {
    CommonAttrs();
    LinkAttrs();
    EscapedHasNoAngle(b.faviconHref.value);
  }

  lemma MetaClean(name: string, content: string)
    requires '<' !in name
    ensures Clean(Meta(name, content))
  {
    EscapedHasNoAngle(content);
  }

  lemma MetaNames()
    ensures '<' !in "paperclip-worktree-name" && '<' !in "paperclip-worktree-color"
    ensures '<' !in "paperclip-worktree-text-color" && '<' !in "paperclip-instance-id"
    ensures NoAngle(Attr("name", "paperclip-worktree-enabled")) && NoAngle(Attr("content", "true"))
  {
  }

  lemma RuntimeTagsClean(b: Branding)
    ensures forall k :: 0 <= k < |RuntimeBrandingTags(b)| ==> Clean(RuntimeBrandingTags(b)[k])
  {
    MetaNames();
    if RuntimeBrandingTags(b) != [] {
      MetaClean("paperclip-worktree-name", b.name.value);
      MetaClean("paperclip-worktree-color", b.color.value);
      MetaClean("paperclip-worktree-text-color", b.textColor.value);
      if !Blank(b.instanceId) {
        MetaClean("paperclip-instance-id", b.instanceId.value);
      }
    }
  }

  lemma {:induction false} JoinTame(lines: seq<string>)
    requires forall k :: 0 <= k < |lines| ==> Tame(lines[k])
    ensures Tame(Join(lines, '\n'))
  {
    if |lines| > 1 {
      JoinTame(lines[1..]);
      NoAngleTame(['\n']);
      TameConcat(lines[0], ['\n']);
      TameConcat(lines[0] + ['\n'], Join(lines[1..], '\n'));
    }
  }

  lemma {:induction false} SplitTame(s: string)
    requires Tame(s)
    ensures forall k :: 0 <= k < |Split(s, '\n')| ==> Tame(Split(s, '\n')[k])
  {
    if s != "" {
      assert forall k :: 0 <= k < |s[1..]| ==> s[1..][k] == s[k + 1];
      SplitTame(s[1..]);
      var rest := Split(s[1..], '\n');
      if s[0] != '\n' {
        SplitHead(s[1..]);
        assert forall k :: 0 < k < |[s[0]] + rest[0]| ==> ([s[0]] + rest[0])[k] == rest[0][k - 1];
      }
    }
  }

  lemma SplitHead(s: string)
    ensures s != "" && s[0] != '\n' ==> Split(s, '\n')[0] != "" && Split(s, '\n')[0][0] == s[0]
  {
  }

  lemma {:induction false} IndentTame(lines: seq<string>)
    requires forall k :: 0 <= k < |lines| ==> Tame(lines[k])
    ensures forall k :: 0 <= k < |IndentLines(lines)| ==> Tame(IndentLines(lines)[k])
  {
    if lines != [] {
      IndentTame(lines[1..]);
      NoAngleTame("    ");
      TameConcat("    ", lines[0]);
    }
  }

  /** Inserted text: it begins with a line break and holds no opening of a comment. */
  predicate Inert(ind: string) {
    ind != "" && ind[0] == '\n' && Tame(ind)
  }

  lemma IndentedInert(content: string)
    requires Tame(content)
    ensures Inert(IndentedContent(content))
  {
    NoAngleTame("\n");
    NoAngleTame("\n    ");
    if content != "" {
      SplitTame(content);
      IndentTame(Split(content, '\n'));
      var middle := Join(IndentLines(Split(content, '\n')), '\n');
      JoinTame(IndentLines(Split(content, '\n')));
      TameConcat("\n", middle);
      TameConcat("\n" + middle, "\n    ");
    }
  }

  lemma ContentsInert(b: Branding)
    ensures Inert(IndentedContent(RenderFaviconLinks(b))) && Inert(IndentedContent(RenderRuntimeBrandingMeta(b)))
  {
    if !b.enabled || Blank(b.faviconHref) {
      DefaultLinksClean();
    } else {
      BrandedLinksClean(b);
    }
    TagsTame(FaviconLinks(b));
    JoinTame(Tags(FaviconLinks(b)));
    IndentedInert(RenderFaviconLinks(b));
    RuntimeTagsClean(b);
    TagsTame(RuntimeBrandingTags(b));
    JoinTame(Tags(RuntimeBrandingTags(b)));
    IndentedInert(RenderRuntimeBrandingMeta(b));
  }

  // ---------- markers ----------

  predicate IsMarker(m: string) {
    |m| >= 2 && m[0] == '<' && m[1] == '!' && '<' !in m[1..] && '\n' !in m
  }

  /** The two markers never stand at the same place. */
  ghost predicate Distinct(m: string, n: string) {
    forall s, i :: OccursAt(s, m, i) ==> !OccursAt(s, n, i)
  }

  predicate IsMarkerName(name: string) {
    ' ' !in name && '<' !in name && '\n' !in name
  }

  lemma MarkerShape(name: string)
    requires IsMarkerName(name)
    ensures IsMarker(Marker(name))
  {
    var rest := "-- PAPERCLIP_" + name + " -->";
    assert Marker(name)[1..] == "!" + rest;
    assert '<' !in "-- PAPERCLIP_" && '\n' !in "-- PAPERCLIP_";
  }

  lemma MarkersDistinct(a: string, b: string)
    requires IsMarkerName(a) && IsMarkerName(b) && |a| < |b|
    ensures Distinct(Marker(a), Marker(b)) && Distinct(Marker(b), Marker(a))
  {
    var at := 15 + |a|;
    assert Marker(a)[at] == ' ';
    assert Marker(b)[at] == b[|a|] && b[|a|] in b;
    forall s, i | OccursAt(s, Marker(a), i)
      ensures !OccursAt(s, Marker(b), i)
    {
      OccursChar(s, Marker(a), i, at);
      OccursChar(s, Marker(b), i, at);
    }
  }

  lemma OccursChar(s: string, m: string, i: int, k: nat)
    requires k < |m|
    ensures OccursAt(s, m, i) ==> s[i + k] == m[k]
  {
    if OccursAt(s, m, i) {
      assert s[i..i + |m|][k] == s[i + k];
    }
  }

  ghost predicate IsBlockPair(startMarker: string, endMarker: string) {
    IsMarker(startMarker) && IsMarker(endMarker) && Distinct(startMarker, endMarker) && Distinct(endMarker, startMarker)
  }

  lemma FaviconMarkerNames()
    ensures IsMarkerName("FAVICON_START") && IsMarkerName("FAVICON_END")
  {
  }

  lemma RuntimeMarkerNames()
    ensures IsMarkerName("RUNTIME_BRANDING_START")
    ensures IsMarkerName("RUNTIME_BRANDING_END")
  {
  }

  lemma BlockPairs()
    ensures IsBlockPair(FAVICON_START, FAVICON_END) && IsBlockPair(RUNTIME_START, RUNTIME_END)
    ensures IsBlockPair(FAVICON_START, RUNTIME_START) && IsBlockPair(FAVICON_END, RUNTIME_START)
    ensures IsBlockPair(FAVICON_START, RUNTIME_END) && IsBlockPair(FAVICON_END, RUNTIME_END)
  {
    FaviconMarkerNames();
    RuntimeMarkerNames();
    MarkerShape("FAVICON_START");
    MarkerShape("FAVICON_END");
    MarkerShape("RUNTIME_BRANDING_START");
    MarkerShape("RUNTIME_BRANDING_END");
    MarkersDistinct("FAVICON_END", "FAVICON_START");
    MarkersDistinct("RUNTIME_BRANDING_END", "RUNTIME_BRANDING_START");
    MarkersDistinct("FAVICON_START", "RUNTIME_BRANDING_START");
    MarkersDistinct("FAVICON_END", "RUNTIME_BRANDING_START");
    MarkersDistinct("FAVICON_START", "RUNTIME_BRANDING_END");
    MarkersDistinct("FAVICON_END", "RUNTIME_BRANDING_END");
  }

  // ---------- where markers stand ----------

  lemma InsideMarker(s: string, m: string, i: int, j: int)
    requires IsMarker(m) && OccursAt(s, m, i) && i < j < i + |m|
    ensures s[j] != '<'
  {
    OccursChar(s, m, i, j - i);
    assert m[j - i] == m[1..][j - i - 1] && m[1..][j - i - 1] in m[1..];
  }

  /** Markers do not overlap. */
  lemma Apart(s: string, m: string, n: string, i: int, j: int)
    requires IsMarker(m) && IsMarker(n) && OccursAt(s, m, i) && OccursAt(s, n, j) && i < j
    ensures i + |m| <= j
  {
    OccursChar(s, n, j, 0);
    if j < i + |m| {
      InsideMarker(s, m, i, j);
    }
  }

  lemma OccursWithin(s: string, t: string, m: string, i: int, shift: int)
    requires 0 <= i && i + |m| <= |s| && 0 <= i + shift && i + shift + |m| <= |t|
    requires forall k :: i <= k < i + |m| ==> s[k] == t[k + shift]
    ensures OccursAt(s, m, i) <==> OccursAt(t, m, i + shift)
  {
    assert s[i..i + |m|] == t[i + shift..i + shift + |m|];
  }

  lemma OccursInside(s: string, m: string, i: int)
    ensures OccursAt(s, m, i) ==> 0 <= i && i + |m| <= |s|
  {
  }

  /** Markers in spliced text are those of the two ends: the insertion holds none and completes none. */
  lemma OccursInSplice(before: string, ind: string, after: string, m: string, i: int)
    requires IsMarker(m) && Inert(ind)
    ensures OccursAt(before + ind + after, m, i) <==>
            OccursAt(before, m, i) || OccursAt(after, m, i - |before| - |ind|)
  {
    hide OccursAt;
    var s := before + ind + after;
    var cut := |before| + |ind|;
    OccursInside(s, m, i);
    OccursInside(before, m, i);
    OccursInside(after, m, i - cut);
    if 0 <= i && i + |m| <= |before| {
      OccursWithin(before, s, m, i, 0);
    } else if cut <= i && i + |m| <= |s| {
      OccursWithin(after, s, m, i - cut, cut);
    } else if 0 <= i < |before| < i + |m| {
      OccursChar(s, m, i, |before| - i);
      assert s[|before|] == ind[0] && m[|before| - i] in m;
    } else if |before| <= i < cut {
      OccursChar(s, m, i, 0);
      OccursChar(s, m, i, 1);
      assert s[i] == ind[i - |before|];
      if s[i] == '<' {
        assert s[i + 1] == ind[i + 1 - |before|];
      }
    }
  }

  /** A text with the part from cut to end replaced. */
  function Filled(html: string, cut: nat, ind: string, end: nat): string
    requires cut <= end <= |html|
  {
    html[..cut] + ind + html[end..]
  }

  /** A block is found: its start and end markers are the first of their kind and stand in order. */
  predicate BlockAt(html: string, startMarker: string, endMarker: string, start: int, end: int) {
    && start == IndexOf(html, startMarker) != -1
    && end == IndexOf(html, endMarker) != -1
    && 0 <= start && start + |startMarker| <= end <= |html| - |endMarker|
  }

  lemma BlockIsFirst(html: string, startMarker: string, endMarker: string, start: int, end: int)
    ensures BlockAt(html, startMarker, endMarker, start, end) <==>
            First(html, startMarker, start) && First(html, endMarker, end) && start + |startMarker| <= end
  {
    IndexOfIsFirst(html, startMarker, start);
    IndexOfIsFirst(html, endMarker, end);
  }

  lemma FillAt(html: string, startMarker: string, endMarker: string, ind: string, start: int, end: int)
    requires BlockAt(html, startMarker, endMarker, start, end)
    ensures FillMarkedBlock(html, startMarker, endMarker, ind)
            == Filled(html, start + |startMarker|, ind, end)
  {
  }

  lemma FillNowhere(html: string, startMarker: string, endMarker: string, ind: string)
    requires IsBlockPair(startMarker, endMarker)
    requires !BlockAt(html, startMarker, endMarker, IndexOf(html, startMarker), IndexOf(html, endMarker))
    ensures FillMarkedBlock(html, startMarker, endMarker, ind) == html
  {
    var start, end := IndexOf(html, startMarker), IndexOf(html, endMarker);
    IndexOfIsFirst(html, startMarker, start);
    IndexOfIsFirst(html, endMarker, end);
    if start != -1 && end != -1 && start <= end {
      assert start != end;
      Apart(html, startMarker, endMarker, start, end);
    }
  }

  /** A marker in the part of a text before a cut stands there in the whole text, and the other way round. */
  lemma OccursInFront(html: string, m: string, cut: nat, i: int)
    requires cut <= |html|
    ensures OccursAt(html[..cut], m, i) <==> OccursAt(html, m, i) && i + |m| <= cut
  {
    if 0 <= i && i + |m| <= cut {
      OccursWithin(html[..cut], html, m, i, 0);
    }
  }

  lemma OccursBehind(html: string, m: string, cut: nat, i: int)
    requires cut <= |html| && i >= 0
    ensures OccursAt(html[cut..], m, i) <==> OccursAt(html, m, i + cut)
  {
    if i + |m| <= |html| - cut {
      OccursWithin(html[cut..], html, m, i, cut);
    }
  }

  lemma FirstInFront(html: string, m: string, cut: nat, ind: string, end: nat, i: int)
    requires IsMarker(m) && Inert(ind) && First(html, m, i) && i + |m| <= cut <= end <= |html|
    ensures First(Filled(html, cut, ind, end), m, i)
  {
    forall j | j <= i
      ensures OccursAt(Filled(html, cut, ind, end), m, j) <==> OccursAt(html, m, j)
    {
      OccursInSplice(html[..cut], ind, html[end..], m, j);
      OccursInFront(html, m, cut, j);
    }
  }

  lemma FirstBehind(html: string, m: string, cut: nat, ind: string, end: nat, i: int)
    requires IsMarker(m) && Inert(ind) && First(html, m, i) && cut <= end <= i && end <= |html|
    ensures First(Filled(html, cut, ind, end), m, i + (cut + |ind| - end))
  {
    var shift := cut + |ind| - end;
    forall j | j <= i + shift
      ensures OccursAt(Filled(html, cut, ind, end), m, j) <==> j == i + shift
    {
      OccursInSplice(html[..cut], ind, html[end..], m, j);
      OccursInFront(html, m, cut, j);
      if j >= cut + |ind| {
        OccursBehind(html, m, end, j - cut - |ind|);
      }
    }
  }

  /** After a replacement the block is found again, around exactly the inserted text. */
  lemma BlockAfterFill(html: string, startMarker: string, endMarker: string, ind: string, start: int, end: int)
    requires IsBlockPair(startMarker, endMarker) && Inert(ind)
    requires BlockAt(html, startMarker, endMarker, start, end)
    ensures var cut := start + |startMarker|;
            BlockAt(Filled(html, cut, ind, end), startMarker, endMarker, start, cut + |ind|)
  {
    hide IndexOf, First, OccursAt, Inert, Filled;
    var cut := start + |startMarker|;
    BlockIsFirst(html, startMarker, endMarker, start, end);
    FirstInFront(html, startMarker, cut, ind, end, start);
    FirstBehind(html, endMarker, cut, ind, end, end);
    BlockIsFirst(Filled(html, cut, ind, end), startMarker, endMarker, start, cut + |ind|);
  }

  lemma FilledWithItself(html: string, cut: nat, end: nat)
    requires cut <= end <= |html|
    ensures Filled(html, cut, html[cut..end], end) == html
  {
  }

  /** The block already holds this content. */
  lemma FixedWhenFilled(html: string, startMarker: string, endMarker: string, ind: string, start: int, end: int)
    requires BlockAt(html, startMarker, endMarker, start, end)
    requires html[start + |startMarker|..end] == ind
    ensures FillMarkedBlock(html, startMarker, endMarker, ind) == html
  {
    FillAt(html, startMarker, endMarker, ind, start, end);
    FilledWithItself(html, start + |startMarker|, end);
  }

  /** Rewriting one block is idempotent on every text. */
  lemma FillIsIdempotent(html: string, startMarker: string, endMarker: string, ind: string)
    requires IsBlockPair(startMarker, endMarker) && Inert(ind)
    ensures var once := FillMarkedBlock(html, startMarker, endMarker, ind);
            FillMarkedBlock(once, startMarker, endMarker, ind) == once
  {
    var start, end := IndexOf(html, startMarker), IndexOf(html, endMarker);
    if BlockAt(html, startMarker, endMarker, start, end) {
      var cut := start + |startMarker|;
      FillAt(html, startMarker, endMarker, ind, start, end);
      BlockAfterFill(html, startMarker, endMarker, ind, start, end);
      assert Filled(html, cut, ind, end)[cut..cut + |ind|] == ind;
      FixedWhenFilled(Filled(html, cut, ind, end), startMarker, endMarker, ind, start, cut + |ind|);
    } else {
      FillNowhere(html, startMarker, endMarker, ind);
    }
  }

  // ---------- both blocks ----------

  /** A text with two parts replaced, the one from cut0 to end0 and the one from cut1 to end1. */
  function FilledTwice(html: string, cut0: nat, ind0: string, end0: nat, cut1: nat, ind1: string, end1: nat): string
    requires cut0 <= end0 <= cut1 <= end1 <= |html|
  {
    html[..cut0] + ind0 + html[end0..cut1] + ind1 + html[end1..]
  }

  lemma SpliceBefore(html: string, cut: nat, ind: string, end: nat, cut0: nat, ind0: string, end0: nat)
    requires cut0 <= end0 <= cut <= end <= |html|
    ensures Filled(Filled(html, cut, ind, end), cut0, ind0, end0) == FilledTwice(html, cut0, ind0, end0, cut, ind, end)
  {
    var h := Filled(html, cut, ind, end);
    assert h[..cut0] == html[..cut0];
    assert h[end0..] == html[end0..cut] + ind + html[end..];
    ConcatAssoc(html[..cut0] + ind0, html[end0..cut] + ind, html[end..]);
    ConcatAssoc(html[..cut0] + ind0, html[end0..cut], ind);
  }

  lemma SpliceBehind(html: string, cut: nat, ind: string, end: nat, cut1: nat, ind1: string, end1: nat)
    requires cut <= end <= cut1 <= end1 <= |html|
    ensures var shift := cut + |ind| - end;
            Filled(Filled(html, cut, ind, end), cut1 + shift, ind1, end1 + shift)
            == FilledTwice(html, cut, ind, end, cut1, ind1, end1)
  {
    var h, shift := Filled(html, cut, ind, end), cut + |ind| - end;
    assert h[..cut1 + shift] == html[..cut] + ind + html[end..cut1];
    assert h[end1 + shift..] == html[end1..];
  }

  lemma BlockInFront(html: string, s0: string, e0: string, cut: nat, ind: string, end: nat, at0: int, end0: int)
    requires IsMarker(s0) && IsMarker(e0) && Inert(ind) && BlockAt(html, s0, e0, at0, end0)
    requires end0 + |e0| <= cut <= end <= |html|
    ensures BlockAt(Filled(html, cut, ind, end), s0, e0, at0, end0)
  {
    BlockIsFirst(html, s0, e0, at0, end0);
    FirstInFront(html, s0, cut, ind, end, at0);
    FirstInFront(html, e0, cut, ind, end, end0);
    BlockIsFirst(Filled(html, cut, ind, end), s0, e0, at0, end0);
  }

  lemma BlockBehind(html: string, s1: string, e1: string, cut: nat, ind: string, end: nat, at1: int, end1: int)
    requires IsMarker(s1) && IsMarker(e1) && Inert(ind) && BlockAt(html, s1, e1, at1, end1)
    requires cut <= end <= at1 && end <= |html|
    ensures var shift := cut + |ind| - end;
            BlockAt(Filled(html, cut, ind, end), s1, e1, at1 + shift, end1 + shift)
  {
    var shift := cut + |ind| - end;
    BlockIsFirst(html, s1, e1, at1, end1);
    FirstBehind(html, s1, cut, ind, end, at1);
    FirstBehind(html, e1, cut, ind, end, end1);
    BlockIsFirst(Filled(html, cut, ind, end), s1, e1, at1 + shift, end1 + shift);
  }

  /** Filling a block and then one that stands before it. */
  lemma FillThenEarlier(html: string, s1: string, e1: string, c1: string, at1: int, end1: int,
                        s0: string, e0: string, c0: string, at0: int, end0: int)
    requires IsMarker(s0) && IsMarker(e0) && Inert(c1)
    requires BlockAt(html, s1, e1, at1, end1) && BlockAt(html, s0, e0, at0, end0) && end0 + |e0| <= at1
    ensures FillMarkedBlock(FillMarkedBlock(html, s1, e1, c1), s0, e0, c0)
            == FilledTwice(html, at0 + |s0|, c0, end0, at1 + |s1|, c1, end1)
  {
    hide Filled, IndexFrom, FilledTwice, FillMarkedBlock, Inert;
    var h := Filled(html, at1 + |s1|, c1, end1);
    FillAt(html, s1, e1, c1, at1, end1);
    assert FillMarkedBlock(html, s1, e1, c1) == h;
    BlockInFront(html, s0, e0, at1 + |s1|, c1, end1, at0, end0);
    FillAt(h, s0, e0, c0, at0, end0);
    assert FillMarkedBlock(h, s0, e0, c0) == Filled(h, at0 + |s0|, c0, end0);
    SpliceBefore(html, at1 + |s1|, c1, end1, at0 + |s0|, c0, end0);
  }

  /** Filling a block and then one that stands behind it. */
  lemma FillThenLater(html: string, s0: string, e0: string, c0: string, at0: int, end0: int,
                      s1: string, e1: string, c1: string, at1: int, end1: int)
    requires IsMarker(s1) && IsMarker(e1) && Inert(c0)
    requires BlockAt(html, s0, e0, at0, end0) && BlockAt(html, s1, e1, at1, end1) && end0 + |e0| <= at1
    ensures FillMarkedBlock(FillMarkedBlock(html, s0, e0, c0), s1, e1, c1)
            == FilledTwice(html, at0 + |s0|, c0, end0, at1 + |s1|, c1, end1)
  {
    hide Filled, IndexFrom, FilledTwice, FillMarkedBlock, Inert;
    var h, shift := Filled(html, at0 + |s0|, c0, end0), at0 + |s0| + |c0| - end0;
    FillAt(html, s0, e0, c0, at0, end0);
    assert FillMarkedBlock(html, s0, e0, c0) == h;
    BlockBehind(html, s1, e1, at0 + |s0|, c0, end0, at1, end1);
    FillAt(h, s1, e1, c1, at1 + shift, end1 + shift);
    assert FillMarkedBlock(h, s1, e1, c1) == Filled(h, at1 + shift + |s1|, c1, end1 + shift);
    SpliceBehind(html, at0 + |s0|, c0, end0, at1 + |s1|, c1, end1);
  }

  /** Nothing outside the two marked regions changes. Here the runtime block comes first, as in the index page. */
  lemma OnlyMarkedRegionsChange(html: string, b: Branding, sr: int, er: int, sf: int, ef: int)
    requires First(html, RUNTIME_START, sr) && First(html, RUNTIME_END, er) && sr + |RUNTIME_START| <= er
    requires First(html, FAVICON_START, sf) && First(html, FAVICON_END, ef) && sf + |FAVICON_START| <= ef
    requires er + |RUNTIME_END| <= sf
    ensures ApplyUiBranding(html, b)
            == FilledTwice(html, sr + |RUNTIME_START|, IndentedContent(RenderRuntimeBrandingMeta(b)), er,
                           sf + |FAVICON_START|, IndentedContent(RenderFaviconLinks(b)), ef)
  {
    ContentsInert(b);
    BlockPairs();
    BlockIsFirst(html, RUNTIME_START, RUNTIME_END, sr, er);
    BlockIsFirst(html, FAVICON_START, FAVICON_END, sf, ef);
    hide IndexFrom, First, OccursAt, Inert;
    FillThenEarlier(html, FAVICON_START, FAVICON_END, IndentedContent(RenderFaviconLinks(b)), sf, ef,
                    RUNTIME_START, RUNTIME_END, IndentedContent(RenderRuntimeBrandingMeta(b)), sr, er);
  }

  /** The same with the favicon block first. */
  lemma OnlyMarkedRegionsChangeSwapped(html: string, b: Branding, sf: int, ef: int, sr: int, er: int)
    requires First(html, FAVICON_START, sf) && First(html, FAVICON_END, ef) && sf + |FAVICON_START| <= ef
    requires First(html, RUNTIME_START, sr) && First(html, RUNTIME_END, er) && sr + |RUNTIME_START| <= er
    requires ef + |FAVICON_END| <= sr
    ensures ApplyUiBranding(html, b)
            == FilledTwice(html, sf + |FAVICON_START|, IndentedContent(RenderFaviconLinks(b)), ef,
                           sr + |RUNTIME_START|, IndentedContent(RenderRuntimeBrandingMeta(b)), er)
  {
    ContentsInert(b);
    BlockPairs();
    BlockIsFirst(html, RUNTIME_START, RUNTIME_END, sr, er);
    BlockIsFirst(html, FAVICON_START, FAVICON_END, sf, ef);
    hide IndexFrom, First, OccursAt, Inert;
    FillThenLater(html, FAVICON_START, FAVICON_END, IndentedContent(RenderFaviconLinks(b)), sf, ef,
                  RUNTIME_START, RUNTIME_END, IndentedContent(RenderRuntimeBrandingMeta(b)), sr, er);
  }

  ghost predicate AtMostOnce(s: string, m: string) {
    forall i, j :: OccursAt(s, m, i) && OccursAt(s, m, j) ==> i == j
  }

  /** Every marker of a filled text comes from the text it was filled into. */
  lemma Origin(html: string, cut: nat, ind: string, end: nat, m: string, i: int) returns (j: int)
    requires IsMarker(m) && Inert(ind) && cut <= end <= |html|
    requires OccursAt(Filled(html, cut, ind, end), m, i)
    ensures OccursAt(html, m, j)
    ensures (j == i && i + |m| <= cut) || (end <= j && j - end == i - cut - |ind|)
  {
    OccursInSplice(html[..cut], ind, html[end..], m, i);
    OccursInFront(html, m, cut, i);
    if OccursAt(html[..cut], m, i) {
      j := i;
    } else {
      j := i - cut - |ind| + end;
      OccursBehind(html, m, end, i - cut - |ind|);
    }
  }

  lemma StillAtMostOnce(html: string, cut: nat, ind: string, end: nat, m: string)
    requires IsMarker(m) && Inert(ind) && cut <= end <= |html| && AtMostOnce(html, m)
    ensures AtMostOnce(Filled(html, cut, ind, end), m)
  {
    var s := Filled(html, cut, ind, end);
    forall i, j | OccursAt(s, m, i) && OccursAt(s, m, j)
      ensures i == j
    {
      var i0 := Origin(html, cut, ind, end, m, i);
      var j0 := Origin(html, cut, ind, end, m, j);
      assert i0 == j0;
    }
  }

  lemma NoMarkerInside(ind: string, m: string, k: int)
    requires Inert(ind) && IsMarker(m)
    ensures !OccursAt(ind, m, k)
  {
    OccursChar(ind, m, k, 0);
    OccursChar(ind, m, k, 1);
  }

  /** A block that holds the inserted text does not hold any part of another marker. */
  lemma NotStraddled(html: string, startMarker: string, ind: string, other: string, a: int, e: int, o: int)
    requires IsBlockPair(startMarker, other) && Inert(ind)
    requires OccursAt(html, startMarker, a) && a + |startMarker| <= e <= |html|
    requires html[a + |startMarker|..e] == ind
    requires OccursAt(html, other, o)
    ensures o + |other| < a + |startMarker| || e < o + |other|
  {
    var from := a + |startMarker|;
    if o < a {
      Apart(html, other, startMarker, o, a);
    } else if a < o {
      Apart(html, startMarker, other, a, o);
      if o + |other| <= e {
        NoMarkerInside(ind, other, o - from);
        OccursWithin(ind, html, other, o - from, from);
      }
    }
  }

  lemma HeldContent(html: string, startMarker: string, endMarker: string, ind: string, a: int, e: int)
    requires BlockAt(html, startMarker, endMarker, a, e)
    requires FillMarkedBlock(html, startMarker, endMarker, ind) == html
    ensures html[a + |startMarker|..e] == ind
  {
    var cut := a + |startMarker|;
    FillAt(html, startMarker, endMarker, ind, a, e);
    assert |Filled(html, cut, ind, e)| == cut + |ind| + (|html| - e);
    assert Filled(html, cut, ind, e)[cut..cut + |ind|] == ind;
  }

  /** The block of a filled text, traced back to where it stood before. */
  lemma BlockOrigin(html: string, startMarker: string, endMarker: string, cut: nat, ind: string, end: nat, a: int,
                    e: int)
    returns (a0: int, e0: int)
    requires IsBlockPair(startMarker, endMarker) && Inert(ind) && cut <= end <= |html|
    requires AtMostOnce(html, startMarker) && AtMostOnce(html, endMarker)
    requires BlockAt(Filled(html, cut, ind, end), startMarker, endMarker, a, e)
    ensures BlockAt(html, startMarker, endMarker, a0, e0)
    ensures (a0 == a && e0 == e && e <= cut)
            || (end <= a0 && a0 - end == a - cut - |ind| && e0 - end == e - cut - |ind|)
            || (a0 + |startMarker| <= cut && end <= e0)
  {
    BlockIsFirst(Filled(html, cut, ind, end), startMarker, endMarker, a, e);
    a0 := Origin(html, cut, ind, end, startMarker, a);
    e0 := Origin(html, cut, ind, end, endMarker, e);
    BlockIsFirst(html, startMarker, endMarker, a0, e0);
  }

  /** Filling another block leaves a block that is already filled as it is, so long as its markers are unique. */
  lemma OtherBlockUndisturbed(html: string, startMarker: string, endMarker: string, held: string,
                              other: string, cut: nat, ind: string, end: nat)
    requires IsBlockPair(startMarker, endMarker) && IsBlockPair(startMarker, other)
    requires Inert(held) && Inert(ind)
    requires AtMostOnce(html, startMarker) && AtMostOnce(html, endMarker)
    requires FillMarkedBlock(html, startMarker, endMarker, held) == html
    requires |other| <= cut <= end <= |html| && OccursAt(html, other, cut - |other|)
    ensures FillMarkedBlock(Filled(html, cut, ind, end), startMarker, endMarker, held) == Filled(html, cut, ind, end)
  {
    hide Filled, IndexFrom, FillMarkedBlock, Inert, IsMarker;
    var h := Filled(html, cut, ind, end);
    var a, e := IndexOf(h, startMarker), IndexOf(h, endMarker);
    if BlockAt(h, startMarker, endMarker, a, e) {
      var a0, e0 := BlockOrigin(html, startMarker, endMarker, cut, ind, end, a, e);
      HeldContent(html, startMarker, endMarker, held, a0, e0);
      BlockIsFirst(html, startMarker, endMarker, a0, e0);
      NotStraddled(html, startMarker, held, other, a0, e0, cut - |other|);
      SameSlice(html, cut, ind, end, a + |startMarker|, e, a0 + |startMarker|, e0);
      FixedWhenFilled(h, startMarker, endMarker, held, a, e);
    } else {
      FillNowhere(h, startMarker, endMarker, held);
    }
  }

  lemma SameSlice(html: string, cut: nat, ind: string, end: nat, from: nat, upto: nat, from0: nat, upto0: nat)
    requires cut <= end <= |html| && from <= upto && from0 <= upto0 <= |html|
    requires (from0 == from && upto0 == upto && upto <= cut)
             || (end <= from0 && from0 - end == from - cut - |ind| && upto0 - end == upto - cut - |ind|)
    ensures upto <= |Filled(html, cut, ind, end)| && Filled(html, cut, ind, end)[from..upto] == html[from0..upto0]
  {
    var h := Filled(html, cut, ind, end);
    assert |h| == cut + |ind| + (|html| - end);
    assert h[from..upto] == html[from0..upto0];
  }

  /** Filling two blocks one after the other, twice, is filling them once: the markers of the first must be unique,
      those of the second may be repeated and stand anywhere, inside the first block or around it. */
  lemma FillBothIsIdempotent(html: string, s0: string, e0: string, c0: string, s1: string, e1: string, c1: string)
    requires IsBlockPair(s0, e0) && IsBlockPair(s1, e1) && IsBlockPair(s0, s1)
    requires Inert(c0) && Inert(c1)
    requires AtMostOnce(html, s0) && AtMostOnce(html, e0)
    ensures var once := FillMarkedBlock(FillMarkedBlock(html, s0, e0, c0), s1, e1, c1);
            FillMarkedBlock(FillMarkedBlock(once, s0, e0, c0), s1, e1, c1) == once
  {
    hide IndexFrom, FillMarkedBlock, Inert;
    var h1 := FillMarkedBlock(html, s0, e0, c0);
    var at, end := IndexOf(h1, s1), IndexOf(h1, e1);
    FillIsIdempotent(html, s0, e0, c0);
    FillIsIdempotent(h1, s1, e1, c1);
    MarkersStayUnique(html, s0, e0, c0);
    if BlockAt(h1, s1, e1, at, end) {
      FillAt(h1, s1, e1, c1, at, end);
      BlockIsFirst(h1, s1, e1, at, end);
      OtherBlockUndisturbed(h1, s0, e0, c0, s1, at + |s1|, c1, end);
    } else {
      FillNowhere(h1, s1, e1, c1);
    }
  }

  lemma MarkersStayUnique(html: string, s0: string, e0: string, c0: string)
    requires IsBlockPair(s0, e0) && Inert(c0) && AtMostOnce(html, s0) && AtMostOnce(html, e0)
    ensures AtMostOnce(FillMarkedBlock(html, s0, e0, c0), s0) && AtMostOnce(FillMarkedBlock(html, s0, e0, c0), e0)
  {
    hide IndexFrom, FillMarkedBlock, Filled, Inert;
    var at, end := IndexOf(html, s0), IndexOf(html, e0);
    if BlockAt(html, s0, e0, at, end) {
      FillAt(html, s0, e0, c0, at, end);
      StillAtMostOnce(html, at + |s0|, c0, end, s0);
      StillAtMostOnce(html, at + |s0|, c0, end, e0);
    } else {
      FillNowhere(html, s0, e0, c0);
    }
  }

  /** Applying the branding twice is applying it once, for every branding and every page in which neither favicon
      marker is repeated, wherever the runtime markers stand. */
  lemma ApplyIsIdempotent(html: string, b: Branding)
    requires AtMostOnce(html, FAVICON_START) && AtMostOnce(html, FAVICON_END)
    ensures ApplyUiBranding(ApplyUiBranding(html, b), b) == ApplyUiBranding(html, b)
  {
    ContentsInert(b);
    BlockPairs();
    FillBothIsIdempotent(html, FAVICON_START, FAVICON_END, IndentedContent(RenderFaviconLinks(b)),
                         RUNTIME_START, RUNTIME_END, IndentedContent(RenderRuntimeBrandingMeta(b)));
  }

  // ---------- when branding twice is branding once ----------

  /** If there is a block, it holds this text. */
  predicate Holds(html: string, startMarker: string, endMarker: string, ind: string) {
    var a, e := IndexOf(html, startMarker), IndexOf(html, endMarker);
    BlockAt(html, startMarker, endMarker, a, e) ==> html[a + |startMarker|..e] == ind
  }

  lemma FixedIffHolds(html: string, startMarker: string, endMarker: string, ind: string)
    requires IsBlockPair(startMarker, endMarker)
    ensures FillMarkedBlock(html, startMarker, endMarker, ind) == html <==> Holds(html, startMarker, endMarker, ind)
  {
    var a, e := IndexOf(html, startMarker), IndexOf(html, endMarker);
    if !BlockAt(html, startMarker, endMarker, a, e) {
      FillNowhere(html, startMarker, endMarker, ind);
    } else if FillMarkedBlock(html, startMarker, endMarker, ind) == html {
      HeldContent(html, startMarker, endMarker, ind, a, e);
    } else if html[a + |startMarker|..e] == ind {
      FixedWhenFilled(html, startMarker, endMarker, ind, a, e);
    }
  }

  /** Four markers that never stand at the same place. */
  ghost predicate Apart4(s0: string, e0: string, s1: string, e1: string) {
    && IsBlockPair(s0, e0) && IsBlockPair(s1, e1) && IsBlockPair(s0, s1) && IsBlockPair(s0, e1)
    && IsBlockPair(e0, s1) && IsBlockPair(e0, e1)
  }

  /** A block that holds its content keeps holding it when a block before it or behind it is filled. */
  lemma HeldBeside(g: string, s0: string, e0: string, c0: string, a: int, e: int, cut: nat, ind: string, end: nat)
    requires IsBlockPair(s0, e0) && Inert(ind) && cut <= end <= |g|
    requires BlockAt(g, s0, e0, a, e) && g[a + |s0|..e] == c0
    requires e + |e0| <= cut || end <= a
    ensures Holds(Filled(g, cut, ind, end), s0, e0, c0)
  {
    hide IndexFrom, Inert, IsMarker;
    if e + |e0| <= cut {
      BlockInFront(g, s0, e0, cut, ind, end, a, e);
      SameSlice(g, cut, ind, end, a + |s0|, e, a + |s0|, e);
    } else {
      var shift := cut + |ind| - end;
      BlockBehind(g, s0, e0, cut, ind, end, a, e);
      SameSlice(g, cut, ind, end, a + shift + |s0|, e + shift, a + |s0|, e);
    }
  }

  /** Where a filled block of one kind stands towards any other block: before it, behind it, or inside it. */
  lemma BesideOrInside(g: string, s0: string, e0: string, c0: string, a: int, e: int, s1: string, e1: string, at: int,
                       end: int)
    requires Apart4(s0, e0, s1, e1) && Inert(c0)
    requires BlockAt(g, s0, e0, a, e) && g[a + |s0|..e] == c0 && BlockAt(g, s1, e1, at, end)
    ensures end + |e1| <= a || e + |e0| <= at || (at + |s1| <= a && a < end)
  {
    hide IndexFrom, Inert;
    BlockIsFirst(g, s0, e0, a, e);
    BlockIsFirst(g, s1, e1, at, end);
    NotStraddled(g, s0, c0, s1, a, e, at);
    NotStraddled(g, s0, c0, e1, a, e, end);
    MarkerOrder(g, s0, s1, a, at);
    MarkerOrder(g, s0, e1, a, end);
    MarkerOrder(g, e0, s1, e, at);
    MarkerOrder(g, e0, e1, e, end);
  }

  lemma MarkerOrder(g: string, m: string, n: string, i: int, j: int)
    requires IsBlockPair(m, n) && OccursAt(g, m, i) && OccursAt(g, n, j)
    ensures i + |m| <= j || j + |n| <= i
  {
    if i < j {
      Apart(g, m, n, i, j);
    } else if j < i {
      Apart(g, n, m, j, i);
    }
  }

  /** If filling both blocks of a page in turn gives it back, and the second is filled already, so is the first. */
  lemma FirstFilledToo(h: string, s0: string, e0: string, c0: string, s1: string, e1: string, c1: string)
    requires Apart4(s0, e0, s1, e1) && Inert(c0) && Inert(c1)
    requires FillMarkedBlock(FillMarkedBlock(h, s0, e0, c0), s1, e1, c1) == h
    ensures Holds(h, s0, e0, c0)
  {
    hide IndexFrom, FillMarkedBlock, Inert, Filled, IsBlockPair, Holds;
    var a, e := IndexOf(h, s0), IndexOf(h, e0);
    if BlockAt(h, s0, e0, a, e) {
      var cut := a + |s0|;
      var g, e2 := Filled(h, cut, c0, e), cut + |c0|;
      FillAt(h, s0, e0, c0, a, e);
      BlockAfterFill(h, s0, e0, c0, a, e);
      FilledSlice(h, cut, c0, e);
      var at, end := IndexOf(g, s1), IndexOf(g, e1);
      if BlockAt(g, s1, e1, at, end) {
        FillAt(g, s1, e1, c1, at, end);
        BesideOrInside(g, s0, e0, c0, a, e2, s1, e1, at, end);
        if end + |e1| <= a || e2 + |e0| <= at {
          HeldBeside(g, s0, e0, c0, a, e2, at + |s1|, c1, end);
        } else {
          NotInside(h, s0, e0, c0, a, e, s1, e1, c1, at, end);
        }
      } else {
        FillNowhere(g, s1, e1, c1);
        FilledSlice(h, cut, c0, e);
        HoldsAt(h, s0, e0, c0, a, e2);
      }
    } else {
      NoBlockHolds(h, s0, e0, c0);
    }
  }

  lemma FilledSlice(html: string, cut: nat, ind: string, end: nat)
    requires cut <= end <= |html|
    ensures cut + |ind| <= |Filled(html, cut, ind, end)| && Filled(html, cut, ind, end)[cut..cut + |ind|] == ind
    ensures Filled(html, cut, ind, end)[..cut] == html[..cut]
  {
  }

  lemma HoldsAt(html: string, startMarker: string, endMarker: string, ind: string, a: int, e: int)
    requires BlockAt(html, startMarker, endMarker, a, e) && html[a + |startMarker|..e] == ind
    ensures Holds(html, startMarker, endMarker, ind)
  {
  }

  lemma NoBlockHolds(html: string, startMarker: string, endMarker: string, ind: string)
    requires !BlockAt(html, startMarker, endMarker, IndexOf(html, startMarker), IndexOf(html, endMarker))
    ensures Holds(html, startMarker, endMarker, ind)
  {
  }

  /** The page given back cannot be one whose second block swallowed the first: the second block would hold a marker
      of the first beside its own content. */
  lemma NotInside(h: string, s0: string, e0: string, c0: string, a: int, e: int, s1: string, e1: string, c1: string,
                  at: int, end: int)
    requires Apart4(s0, e0, s1, e1) && Inert(c0) && Inert(c1) && BlockAt(h, s0, e0, a, e)
    requires var g := Filled(h, a + |s0|, c0, e);
             BlockAt(g, s1, e1, at, end) && at + |s1| <= a && a < end
    ensures Filled(Filled(h, a + |s0|, c0, e), at + |s1|, c1, end) != h
  {
    hide IndexFrom, Inert, Filled, OccursAt;
    var g, end2 := Filled(h, a + |s0|, c0, e), at + |s1| + |c1|;
    BlockIsFirst(h, s0, e0, a, e);
    BlockIsFirst(g, s1, e1, at, end);
    FilledSlice(h, a + |s0|, c0, e);
    if Filled(g, at + |s1|, c1, end) == h {
      EndInFront(g, s0, s1, e1, c1, at, end, a, h);
      SamePrefixOccurs(h, g, e1, end2, a + |s0|);
      assert false;
    }
  }

  /** In a page with the second block filled around nothing but its content, a marker of the first behind the start of
      that block is behind its end. */
  lemma EndInFront(g: string, s0: string, s1: string, e1: string, c1: string, at: int, end: int, a: int, h: string)
    requires IsBlockPair(s1, e1) && IsBlockPair(s0, s1) && IsBlockPair(s0, e1) && Inert(c1)
    requires BlockAt(g, s1, e1, at, end) && h == Filled(g, at + |s1|, c1, end)
    requires OccursAt(h, s0, a) && at + |s1| <= a
    ensures OccursAt(h, e1, at + |s1| + |c1|) && at + |s1| + |c1| + |e1| <= a
  {
    hide IndexOf, IndexFrom, OccursAt, Inert, Filled;
    var end2 := at + |s1| + |c1|;
    BlockAfterFill(g, s1, e1, c1, at, end);
    BlockIsFirst(h, s1, e1, at, end2);
    FilledSlice(g, at + |s1|, c1, end);
    PairSwapped(s0, s1);
    NotStraddled(h, s1, c1, s0, at, end2, a);
    MarkerOrder(h, s0, e1, a, end2);
  }

  lemma PairSwapped(m: string, n: string)
    requires IsBlockPair(m, n)
    ensures IsBlockPair(n, m)
  {
  }

  lemma SamePrefixOccurs(h: string, g: string, m: string, i: int, n: nat)
    requires n <= |h| && n <= |g| && h[..n] == g[..n] && i + |m| <= n && OccursAt(h, m, i)
    ensures OccursAt(g, m, i)
  {
    OccursInFront(h, m, n, i);
    OccursInFront(g, m, n, i);
  }

  /** Filling two blocks in turn is idempotent exactly when the page it leaves has no first block to fill. */
  lemma FillBothExactly(html: string, s0: string, e0: string, c0: string, s1: string, e1: string, c1: string)
    requires Apart4(s0, e0, s1, e1) && Inert(c0) && Inert(c1)
    ensures var once := FillMarkedBlock(FillMarkedBlock(html, s0, e0, c0), s1, e1, c1);
            FillMarkedBlock(FillMarkedBlock(once, s0, e0, c0), s1, e1, c1) == once <==> Holds(once, s0, e0, c0)
  {
    hide IndexFrom, FillMarkedBlock, Inert, Holds, IsBlockPair;
    var filled := FillMarkedBlock(html, s0, e0, c0);
    var once := FillMarkedBlock(filled, s1, e1, c1);
    FillIsIdempotent(filled, s1, e1, c1);
    FixedIffHolds(once, s0, e0, c0);
    if FillMarkedBlock(FillMarkedBlock(once, s0, e0, c0), s1, e1, c1) == once {
      FirstFilledToo(once, s0, e0, c0, s1, e1, c1);
    }
  }

  /** Branding a page a second time changes nothing exactly when the branded page has no favicon block, or one that
      holds the favicon links. */
  lemma ApplyTwiceExactly(html: string, b: Branding)
    ensures ApplyUiBranding(ApplyUiBranding(html, b), b) == ApplyUiBranding(html, b) <==>
              Holds(ApplyUiBranding(html, b), FAVICON_START, FAVICON_END, IndentedContent(RenderFaviconLinks(b)))
  {
    ContentsInert(b);
    BlockPairs();
    hide Holds, FillMarkedBlock, Inert, IsBlockPair, RenderFaviconLinks, RenderRuntimeBrandingMeta, IndentedContent;
    FillBothExactly(html, FAVICON_START, FAVICON_END, IndentedContent(RenderFaviconLinks(b)),
                    RUNTIME_START, RUNTIME_END, IndentedContent(RenderRuntimeBrandingMeta(b)));
  }

  // ---------- the same condition before any branding ----------

  /** Two splices of the same text, marker for marker: where a marker is first in one it is first in the other. */
  lemma FirstInOther(before: string, c: string, d: string, after: string, m: string, i: int)
    requires IsMarker(m) && Inert(c) && Inert(d) && First(before + c + after, m, i)
    ensures i + |m| <= |before| || |before| + |c| <= i
    ensures First(before + d + after, m, if i + |m| <= |before| then i else i - |c| + |d|)
  {
    hide OccursAt, Inert, IsMarker;
    var shift := |d| - |c|;
    OccursBeside(before, c, after, m, i);
    var at := if i + |m| <= |before| then i else i + shift;
    OccursInOther(before, c, d, after, m, i);
    forall j | j < at
      ensures !OccursAt(before + d + after, m, j)
    {
      OccursBeside(before, d, after, m, j);
      OccursInOther(before, c, d, after, m, j);
      OccursInOther(before, c, d, after, m, j - shift);
    }
  }

  lemma OccursBeside(before: string, c: string, after: string, m: string, i: int)
    requires IsMarker(m) && Inert(c)
    ensures OccursAt(before + c + after, m, i) ==> i + |m| <= |before| || |before| + |c| <= i
  {
    hide OccursAt;
    OccursInSplice(before, c, after, m, i);
    OccursInside(before, m, i);
    OccursInside(after, m, i - |before| - |c|);
  }

  /** A marker in front of one insertion is in front of the other, and one behind it is behind the other. */
  lemma OccursInOther(before: string, c: string, d: string, after: string, m: string, i: int)
    requires IsMarker(m) && Inert(c) && Inert(d)
    ensures i + |m| <= |before| ==> (OccursAt(before + d + after, m, i) <==> OccursAt(before + c + after, m, i))
    ensures |before| + |c| <= i ==>
              (OccursAt(before + d + after, m, i - |c| + |d|) <==> OccursAt(before + c + after, m, i))
  {
    hide OccursAt;
    var shift := |d| - |c|;
    OccursInSplice(before, c, after, m, i);
    OccursInSplice(before, d, after, m, i);
    OccursInSplice(before, d, after, m, i + shift);
    OccursInside(before, m, i);
    OccursInside(before, m, i + shift);
    OccursInside(after, m, i - |before| - |c|);
    OccursInside(after, m, i - |before| - |d|);
  }

  /** Where a marker stands in the one splice that stands at i in the other. */
  function Across(cut: nat, c: string, d: string, m: string, i: int): int {
    if i + |m| <= cut then i else i - |d| + |c|
  }

  lemma FilledFirst(h: string, cut: nat, c: string, d: string, end: nat, m: string, i: int)
    requires IsMarker(m) && Inert(c) && Inert(d) && cut <= end <= |h| && First(Filled(h, cut, d, end), m, i)
    ensures i + |m| <= cut || cut + |d| <= i
    ensures First(Filled(h, cut, c, end), m, Across(cut, c, d, m, i))
  {
    hide Inert, IsMarker, First;
    assert |h[..cut]| == cut;
    FirstInOther(h[..cut], d, c, h[end..], m, i);
  }

  /** A filled block does not reach around another marker. */
  lemma NotAround(f: string, s0: string, c0: string, s1: string, a: int, e: int, at: int)
    requires IsBlockPair(s0, s1) && Inert(c0) && OccursAt(f, s0, a) && OccursAt(f, s1, at)
    requires a + |s0| <= at + |s1| <= e <= |f|
    ensures f[a + |s0|..e] != c0
  {
    if f[a + |s0|..e] == c0 {
      NotStraddled(f, s0, c0, s1, a, e, at);
    }
  }

  lemma HeldAcross(h: string, cut: nat, c: string, d: string, end: nat, s0: string, e0: string, c0: string, a: int,
                   e: int)
    requires cut <= end <= |h| && BlockAt(Filled(h, cut, d, end), s0, e0, a, e) && e0 != ""
    requires e + |e0| <= cut || (cut + |d| <= a && s0 != "")
    requires BlockAt(Filled(h, cut, c, end), s0, e0, Across(cut, c, d, s0, a), Across(cut, c, d, e0, e))
    requires Holds(Filled(h, cut, c, end), s0, e0, c0)
    ensures Holds(Filled(h, cut, d, end), s0, e0, c0)
  {
    hide IndexFrom;
    if e + |e0| <= cut {
      SameSlice(h, cut, c, end, a + |s0|, e, a + |s0|, e);
      SameSlice(h, cut, d, end, a + |s0|, e, a + |s0|, e);
    } else {
      var from, upto := a + |s0| - cut - |d| + end, e - cut - |d| + end;
      SameSlice(h, cut, c, end, a - |d| + |c| + |s0|, e - |d| + |c|, from, upto);
      SameSlice(h, cut, d, end, a + |s0|, e, from, upto);
    }
  }

  /** What the first block holds does not depend on what the second has been filled with. */
  lemma HoldsInOther(h: string, s0: string, e0: string, c0: string, s1: string, e1: string, at: int, end: int,
                     c: string, d: string)
    requires Apart4(s0, e0, s1, e1) && Inert(c0) && Inert(c) && Inert(d) && BlockAt(h, s1, e1, at, end)
    requires Holds(Filled(h, at + |s1|, c, end), s0, e0, c0)
    ensures Holds(Filled(h, at + |s1|, d, end), s0, e0, c0)
  {
    hide IndexFrom, Inert, First, OccursAt, IsBlockPair, Holds, Filled, Across;
    StartStays(h, s1, e1, at, end, c);
    var g := Filled(h, at + |s1|, d, end);
    var a, e := IndexOf(g, s0), IndexOf(g, e0);
    if BlockAt(g, s0, e0, a, e) {
      BothAcross(h, at + |s1|, c, d, end, s0, e0, a, e);
      hide BlockAt;
      HoldsAcross(h, s0, e0, c0, s1, at, c, d, end, a, e);
    } else {
      NoBlockHolds(g, s0, e0, c0);
    }
  }

  lemma StartStays(h: string, s1: string, e1: string, at: int, end: int, c: string)
    requires IsBlockPair(s1, e1) && Inert(c) && BlockAt(h, s1, e1, at, end)
    ensures First(Filled(h, at + |s1|, c, end), s1, at)
  {
    TwoMarkers(s1, e1);
    BlockIsFirst(h, s1, e1, at, end);
    hide IndexFrom, Inert, IsMarker, First, Filled;
    FirstInFront(h, s1, at + |s1|, c, end, at);
  }

  lemma BothAcross(h: string, cut: nat, c: string, d: string, end: nat, s0: string, e0: string, a: int, e: int)
    requires IsBlockPair(s0, e0) && Inert(c) && Inert(d) && cut <= end <= |h|
    requires BlockAt(Filled(h, cut, d, end), s0, e0, a, e)
    ensures (a + |s0| <= cut || cut + |d| <= a) && (e + |e0| <= cut || cut + |d| <= e)
    ensures First(Filled(h, cut, c, end), s0, Across(cut, c, d, s0, a))
    ensures First(Filled(h, cut, c, end), e0, Across(cut, c, d, e0, e))
  {
    TwoMarkers(s0, e0);
    BlockIsFirst(Filled(h, cut, d, end), s0, e0, a, e);
    hide IndexFrom, Inert, IsMarker, First, Filled, IsBlockPair, Across;
    FilledFirst(h, cut, c, d, end, s0, a);
    FilledFirst(h, cut, c, d, end, e0, e);
  }

  lemma HoldsAcross(h: string, s0: string, e0: string, c0: string, s1: string, at: int, c: string, d: string, end: nat,
                    a: int, e: int)
    requires IsBlockPair(s0, e0) && IsBlockPair(s0, s1) && Inert(c0) && 0 <= at && at + |s1| <= end <= |h|
    requires var cut := at + |s1|;
             && BlockAt(Filled(h, cut, d, end), s0, e0, a, e) && Holds(Filled(h, cut, c, end), s0, e0, c0)
             && First(Filled(h, cut, c, end), s0, Across(cut, c, d, s0, a))
             && First(Filled(h, cut, c, end), e0, Across(cut, c, d, e0, e))
             && First(Filled(h, cut, c, end), s1, at)
             && (a + |s0| <= cut || cut + |d| <= a) && (e + |e0| <= cut || cut + |d| <= e)
    ensures Holds(Filled(h, at + |s1|, d, end), s0, e0, c0)
  {
    hide IndexFrom, Inert, Filled, OccursAt;
    var cut, f := at + |s1|, Filled(h, at + |s1|, c, end);
    BlockIsFirst(f, s0, e0, Across(cut, c, d, s0, a), Across(cut, c, d, e0, e));
    if a + |s0| <= cut && cut + |d| <= e {
      NotAround(f, s0, c0, s1, a, e - |d| + |c|, at);
    } else {
      HeldAcross(h, cut, c, d, end, s0, e0, c0, a, e);
    }
  }

  /** Filling two blocks in turn is idempotent exactly when the page after the first fill, its second block filled with
      any text at all, has no first block or one that holds its content. */
  lemma FillBothDecided(html: string, s0: string, e0: string, c0: string, s1: string, e1: string, c1: string, d: string)
    requires Apart4(s0, e0, s1, e1) && Inert(c0) && Inert(c1) && Inert(d)
    ensures var filled := FillMarkedBlock(html, s0, e0, c0);
            var once := FillMarkedBlock(filled, s1, e1, c1);
            FillMarkedBlock(FillMarkedBlock(once, s0, e0, c0), s1, e1, c1) == once
            <==> Holds(FillMarkedBlock(filled, s1, e1, d), s0, e0, c0)
  {
    hide IndexFrom, FillMarkedBlock, Inert, Holds, IsBlockPair, Filled;
    FillBothExactly(html, s0, e0, c0, s1, e1, c1);
    var filled := FillMarkedBlock(html, s0, e0, c0);
    var at, end := IndexOf(filled, s1), IndexOf(filled, e1);
    if BlockAt(filled, s1, e1, at, end) {
      FillAt(filled, s1, e1, c1, at, end);
      FillAt(filled, s1, e1, d, at, end);
      var f, g := Filled(filled, at + |s1|, c1, end), Filled(filled, at + |s1|, d, end);
      if Holds(f, s0, e0, c0) {
        HoldsInOther(filled, s0, e0, c0, s1, e1, at, end, c1, d);
      }
      if Holds(g, s0, e0, c0) {
        HoldsInOther(filled, s0, e0, c0, s1, e1, at, end, d, c1);
      }
    } else {
      FillNowhere(filled, s1, e1, c1);
      FillNowhere(filled, s1, e1, d);
    }
  }

  /** The page with its favicon block filled and its runtime block emptied. */
  function FaviconOnly(html: string, b: Branding): string {
    ReplaceMarkedBlock(ReplaceMarkedBlock(html, FAVICON_START, FAVICON_END, RenderFaviconLinks(b)),
                       RUNTIME_START, RUNTIME_END, "")
  }

  /** Whether a second branding will change anything can be told before the first, whatever the runtime branding: it
      will not exactly when the page with its favicon block filled and its runtime block emptied has no favicon block
      or one that holds the favicon links. */
  lemma ApplyTwiceDecided(html: string, b: Branding)
    ensures ApplyUiBranding(ApplyUiBranding(html, b), b) == ApplyUiBranding(html, b) <==>
              Holds(FaviconOnly(html, b), FAVICON_START, FAVICON_END, IndentedContent(RenderFaviconLinks(b)))
  {
    ContentsInert(b);
    BlockPairs();
    IndentedInert("");
    hide Holds, FillMarkedBlock, Inert, IsBlockPair, RenderFaviconLinks, RenderRuntimeBrandingMeta, IndentedContent;
    FillBothDecided(html, FAVICON_START, FAVICON_END, IndentedContent(RenderFaviconLinks(b)),
                    RUNTIME_START, RUNTIME_END, IndentedContent(RenderRuntimeBrandingMeta(b)), IndentedContent(""));
  }

  // ---------- a page that is branded differently the second time ----------

  /** What is behind the second block: its end marker and a first block of its own. */
  function Tail(s0: string, e0: string, e1: string): string {
    e1 + s0 + "b" + e0
  }

  /** A first block inside a second block, and another first block behind. */
  function SwallowPage(s0: string, e0: string, s1: string, e1: string): string {
    s1 + (s0 + "a" + e0) + Tail(s0, e0, e1)
  }

  /** The marker does not stand before this position. */
  ghost predicate NotBefore(s: string, m: string, i: int) {
    forall j :: j < i ==> !OccursAt(s, m, j)
  }

  lemma NotBeforeStart(s: string, m: string)
    ensures NotBefore(s, m, 0)
  {
  }

  /** No other marker begins within a marker. */
  lemma BeyondMarker(s: string, m: string, n: string, i: int)
    requires IsBlockPair(m, n) && OccursAt(s, m, i) && NotBefore(s, n, i)
    ensures NotBefore(s, n, i + |m|)
  {
    hide IsMarker;
    forall j | i < j < i + |m|
      ensures !OccursAt(s, n, j)
    {
      if OccursAt(s, n, j) {
        Apart(s, m, n, i, j);
      }
    }
  }

  lemma BeyondChar(s: string, n: string, i: int)
    requires IsMarker(n) && 0 <= i < |s| && s[i] != '<' && NotBefore(s, n, i)
    ensures NotBefore(s, n, i + 1)
  {
    OccursChar(s, n, i, 0);
  }

  lemma FirstThere(s: string, m: string, i: int)
    requires NotBefore(s, m, i) && OccursAt(s, m, i)
    ensures First(s, m, i)
  {
  }

  lemma PagePieces(s0: string, e0: string, s1: string, e1: string)
    ensures var p := SwallowPage(s0, e0, s1, e1);
            && OccursAt(p, s1, 0) && OccursAt(p, s0, |s1|) && |p| > |s1| + |s0| && p[|s1| + |s0|] == 'a'
            && OccursAt(p, e0, |s1| + |s0| + 1) && OccursAt(p, e1, |s1| + |s0| + 1 + |e0|)
            && p[|s1| + |s0| + 1 + |e0|..] == Tail(s0, e0, e1)
  {
  }

  lemma TailPieces(s0: string, e0: string, e1: string)
    ensures var t := Tail(s0, e0, e1);
            && OccursAt(t, e1, 0) && OccursAt(t, s0, |e1|) && |t| > |e1| + |s0| && t[|e1| + |s0|] == 'b'
            && OccursAt(t, e0, |e1| + |s0| + 1)
  {
  }

  /** These pieces stand in the text: a second start marker, and a first block around one character. */
  ghost predicate Laid(p: string, s0: string, e0: string, s1: string) {
    && OccursAt(p, s1, 0) && OccursAt(p, s0, |s1|) && |p| > |s1| + |s0| && p[|s1| + |s0|] == 'a'
    && OccursAt(p, e0, |s1| + |s0| + 1)
  }

  /** Another marker does not stand among them. */
  lemma PastBlock(p: string, s0: string, e0: string, s1: string, n: string)
    requires IsBlockPair(s1, n) && IsBlockPair(s0, n) && IsBlockPair(e0, n) && Laid(p, s0, e0, s1)
    ensures NotBefore(p, n, |s1| + |s0| + 1 + |e0|)
  {
    TwoMarkers(s1, n);
    hide OccursAt, IsBlockPair, IsMarker, NotBefore;
    NotBeforeStart(p, n);
    BeyondMarker(p, s1, n, 0);
    BeyondMarker(p, s0, n, |s1|);
    BeyondChar(p, n, |s1| + |s0|);
    BeyondMarker(p, e0, n, |s1| + |s0| + 1);
  }

  lemma FirstStart(p: string, s0: string, e0: string, s1: string)
    requires IsBlockPair(s1, s0) && Laid(p, s0, e0, s1)
    ensures First(p, s1, 0) && First(p, s0, |s1|)
  {
    hide OccursAt, IsBlockPair, IsMarker, NotBefore, First;
    NotBeforeStart(p, s1);
    FirstThere(p, s1, 0);
    NotBeforeStart(p, s0);
    BeyondMarker(p, s1, s0, 0);
    FirstThere(p, s0, |s1|);
  }

  lemma FirstEnd(p: string, s0: string, e0: string, s1: string)
    requires IsBlockPair(s1, e0) && IsBlockPair(s0, e0) && Laid(p, s0, e0, s1)
    ensures First(p, e0, |s1| + |s0| + 1)
  {
    TwoMarkers(s1, e0);
    hide OccursAt, IsBlockPair, IsMarker, NotBefore, First;
    NotBeforeStart(p, e0);
    BeyondMarker(p, s1, e0, 0);
    BeyondMarker(p, s0, e0, |s1|);
    BeyondChar(p, e0, |s1| + |s0|);
    FirstThere(p, e0, |s1| + |s0| + 1);
  }

  lemma PageLaid(s0: string, e0: string, s1: string, e1: string)
    ensures Laid(SwallowPage(s0, e0, s1, e1), s0, e0, s1)
    ensures OccursAt(SwallowPage(s0, e0, s1, e1), e1, |s1| + |s0| + 1 + |e0|)
  {
    PagePieces(s0, e0, s1, e1);
    hide SwallowPage, Tail, OccursAt;
  }

  lemma FirstsOfPage(s0: string, e0: string, s1: string, e1: string)
    requires Apart4(s0, e0, s1, e1)
    ensures var p := SwallowPage(s0, e0, s1, e1);
            && First(p, s1, 0) && First(p, s0, |s1|)
            && First(p, e0, |s1| + |s0| + 1) && First(p, e1, |s1| + |s0| + 1 + |e0|)
  {
    hide SwallowPage, Tail, OccursAt, IsBlockPair, IsMarker, NotBefore, First, Laid;
    var p := SwallowPage(s0, e0, s1, e1);
    PageLaid(s0, e0, s1, e1);
    PairSwapped(s0, s1);
    PairSwapped(e0, s1);
    FirstStart(p, s0, e0, s1);
    FirstEnd(p, s0, e0, s1);
    PastBlock(p, s0, e0, s1, e1);
    FirstThere(p, e1, |s1| + |s0| + 1 + |e0|);
  }

  lemma FirstsOfTail(s0: string, e0: string, e1: string)
    requires IsBlockPair(s0, e0) && IsBlockPair(s0, e1) && IsBlockPair(e0, e1)
    ensures First(Tail(s0, e0, e1), s0, |e1|) && First(Tail(s0, e0, e1), e0, |e1| + |s0| + 1)
  {
    var t := Tail(s0, e0, e1);
    TailPieces(s0, e0, e1);
    TwoMarkers(s0, e0);
    hide Tail, OccursAt, IsBlockPair, IsMarker, NotBefore, First;
    PairSwapped(s0, e1);
    PairSwapped(e0, e1);
    NotBeforeStart(t, s0);
    BeyondMarker(t, e1, s0, 0);
    FirstThere(t, s0, |e1|);
    NotBeforeStart(t, e0);
    BeyondMarker(t, e1, e0, 0);
    BeyondMarker(t, s0, e0, |e1|);
    BeyondChar(t, e0, |e1| + |s0|);
    FirstThere(t, e0, |e1| + |s0| + 1);
  }

  /** A text without this marker, inserted text, and then the rest: the first marker is that of the rest. */
  lemma FirstOfRest(before: string, ind: string, after: string, m: string, i: int)
    requires IsMarker(m) && Inert(ind) && First(after, m, i) && forall j :: !OccursAt(before, m, j)
    ensures First(before + ind + after, m, |before| + |ind| + i)
  {
    var s, shift := before + ind + after, |before| + |ind|;
    forall j | j <= shift + i
      ensures OccursAt(s, m, j) <==> j == shift + i
    {
      OccursInSplice(before, ind, after, m, j);
    }
  }

  lemma MarkerAlone(m: string, n: string, j: int)
    requires IsBlockPair(m, n)
    ensures !OccursAt(m, n, j)
  {
    assert OccursAt(m, m, 0);
    NotBeforeStart(m, n);
    BeyondMarker(m, m, n, 0);
  }

  /** The second fill swallows the first block just filled, and the other first block comes to the fore, unfilled. */
  lemma SwallowedOnce(s0: string, e0: string, c0: string, s1: string, e1: string, c1: string)
    requires Apart4(s0, e0, s1, e1) && Inert(c0) && Inert(c1)
    ensures var p := SwallowPage(s0, e0, s1, e1);
            FillMarkedBlock(FillMarkedBlock(p, s0, e0, c0), s1, e1, c1) == s1 + c1 + Tail(s0, e0, e1)
  {
    hide IndexFrom, FillMarkedBlock, Inert, IsBlockPair, SwallowPage, Tail, OccursAt, First;
    var p, cut := SwallowPage(s0, e0, s1, e1), |s1| + |s0|;
    PagePieces(s0, e0, s1, e1);
    FirstsOfPage(s0, e0, s1, e1);
    BlockIsFirst(p, s0, e0, |s1|, cut + 1);
    FillAt(p, s0, e0, c0, |s1|, cut + 1);
    var h, end := Filled(p, cut, c0, cut + 1), cut + |c0| + |e0|;
    assert IsMarker(s1) && IsMarker(e1) by {
      TwoMarkers(s1, e1);
    }
    FirstInFront(p, s1, cut, c0, cut + 1, 0);
    FirstBehind(p, e1, cut, c0, cut + 1, cut + 1 + |e0|);
    BlockIsFirst(h, s1, e1, 0, end);
    hide IsMarker;
    assert 0 <= |s1| <= end <= |h|;
    FillAt(h, s1, e1, c1, 0, end);
    assert h[..|s1|] == s1 && h[end..] == Tail(s0, e0, e1) by {
      SwallowEnds(s0, e0, c0, s1, e1);
    }
  }

  lemma TwoMarkers(m: string, n: string)
    requires IsBlockPair(m, n)
    ensures IsMarker(m) && IsMarker(n)
  {
  }

  lemma SwallowEnds(s0: string, e0: string, c0: string, s1: string, e1: string)
    ensures |s1| + |s0| + 1 <= |SwallowPage(s0, e0, s1, e1)|
    ensures var h := Filled(SwallowPage(s0, e0, s1, e1), |s1| + |s0|, c0, |s1| + |s0| + 1);
            && |h| >= |s1| + |s0| + |c0| + |e0|
            && h[..|s1|] == s1 && h[|s1| + |s0| + |c0| + |e0|..] == Tail(s0, e0, e1)
  {
    hide Tail;
    assert Filled(SwallowPage(s0, e0, s1, e1), |s1| + |s0|, c0, |s1| + |s0| + 1)
           == s1 + s0 + c0 + e0 + Tail(s0, e0, e1);
  }

  lemma SwallowedHoldsB(s0: string, e0: string, c0: string, s1: string, e1: string, c1: string)
    requires Apart4(s0, e0, s1, e1) && Inert(c0) && Inert(c1)
    ensures !Holds(s1 + c1 + Tail(s0, e0, e1), s0, e0, c0)
  {
    hide IndexFrom, FillMarkedBlock, OccursAt, First, Tame;
    var once, at := s1 + c1 + Tail(s0, e0, e1), |s1| + |c1| + |e1|;
    PairSwapped(s0, s1);
    PairSwapped(e0, s1);
    FirstsOfTail(s0, e0, e1);
    TailPieces(s0, e0, e1);
    forall j
      ensures !OccursAt(s1, s0, j) && !OccursAt(s1, e0, j)
    {
      MarkerAlone(s1, s0, j);
      MarkerAlone(s1, e0, j);
    }
    hide Tail, IsBlockPair;
    FirstOfRest(s1, c1, Tail(s0, e0, e1), s0, |e1|);
    FirstOfRest(s1, c1, Tail(s0, e0, e1), e0, |e1| + |s0| + 1);
    BlockIsFirst(once, s0, e0, at, at + |s0| + 1);
    assert once[at + |s0|] == 'b';
    assert once[at + |s0|..at + |s0| + 1][0] == 'b' != c0[0];
  }

  /** The page whose runtime block holds a favicon block and that has another favicon block behind it: the runtime
      block swallows the one that has been filled, and only the second branding fills the other. */
  lemma RepeatedFaviconBlock(b: Branding)
    ensures var page := SwallowPage(FAVICON_START, FAVICON_END, RUNTIME_START, RUNTIME_END);
            ApplyUiBranding(ApplyUiBranding(page, b), b) != ApplyUiBranding(page, b)
  {
    ContentsInert(b);
    BlockPairs();
    var favicon, runtime := IndentedContent(RenderFaviconLinks(b)), IndentedContent(RenderRuntimeBrandingMeta(b));
    var page := SwallowPage(FAVICON_START, FAVICON_END, RUNTIME_START, RUNTIME_END);
    hide Holds, FillMarkedBlock, Inert, IsBlockPair, RenderFaviconLinks, RenderRuntimeBrandingMeta, IndentedContent,
         SwallowPage, Tail;
    SwallowedOnce(FAVICON_START, FAVICON_END, favicon, RUNTIME_START, RUNTIME_END, runtime);
    SwallowedHoldsB(FAVICON_START, FAVICON_END, favicon, RUNTIME_START, RUNTIME_END, runtime);
    ApplyTwiceExactly(page, b);
  }
}
