/**
  The HTML fragment builder of App.java: a tree of elements (text, named element with
  attributes and children, conditional) serialised depth-first without escaping.
  `Render` is the specification; `Accept` is the writer-appending serialiser that the
  Java closures implement, proved to append exactly `Render`.
*/
module Html {
  import opened Wrappers

  /** One attribute `k="v"`. */
  type Attr = (string, string)

  datatype Node =
    | Text(s: string)
    | Element(name: string, attrs: seq<Attr>, children: seq<Node>)
    | Cond(present: bool, inner: Node)

  // ---------------------------------------------------------------------------
  // Builders, one per helper of App.java

  /** `t(text)`: a text node. */
  function T(text: string): Node {
    Text(text)
  }

  /** `tag(name, attributes, inner...)`. */
  function Tag(name: string, attrs: seq<Attr>, inner: seq<Node>): Node {
    Element(name, attrs, inner)
  }

  /** `tag(name, inner...)`: an element with no attributes. */
  function PlainTag(name: string, inner: seq<Node>): Node {
    Tag(name, [], inner)
  }

  /** `ifNotNull(obj, inner)`: guarded by whether `obj` is non-null. */
  function IfNotNull<G>(guard: Option<G>, inner: Node): Node {
    Cond(guard.Some?, inner)
  }

  /** `a(href, inner...)`: an anchor whose only attribute is `href`. */
  function A(href: string, inner: seq<Node>): Node {
    Tag("a", [("href", href)], inner)
  }

  /** `div(inner...)`. */
  function Div(inner: seq<Node>): Node {
    PlainTag("div", inner)
  }

  /** `span(inner...)`. */
  function Span(inner: seq<Node>): Node {
    PlainTag("span", inner)
  }

  // ---------------------------------------------------------------------------
  // Serialisation

  /** One attribute as the Java loop writes it: a space, the key, `="`, the value, `"`. */
  function RenderAttr(a: Attr): string {
    " " + a.0 + "=\"" + a.1 + "\""
  }

  /** The attributes in iteration order. */
  function RenderAttrs(attrs: seq<Attr>): string {
    if attrs == [] then "" else RenderAttr(attrs[0]) + RenderAttrs(attrs[1..])
  }

  /** The opening tag: `<`, the name, the attributes, `>`. */
  function OpenTag(name: string, attrs: seq<Attr>): string {
    "<" + name + RenderAttrs(attrs) + ">"
  }

  /** The closing tag `</name>`. */
  function CloseTag(name: string): string {
    "</" + name + ">"
  }

  /** Depth-first serialisation, no escaping of text or attribute values. */
  function Render(n: Node): string
    decreases n
  {
    match n
    case Text(s) => s
    case Element(name, attrs, children) =>
      OpenTag(name, attrs) + RenderAll(children) + CloseTag(name)
    case Cond(present, inner) => if present then Render(inner) else ""
  }

  /** The children's renderings concatenated in argument order. */
  function RenderAll(ns: seq<Node>): string
    decreases ns
  {
    if ns == [] then "" else Render(ns[0]) + RenderAll(ns[1..])
  }

  lemma {:induction false} RenderAttrsAppend(a: seq<Attr>, b: seq<Attr>)
    ensures RenderAttrs(a + b) == RenderAttrs(a) + RenderAttrs(b)
  {
    if a == [] {
      assert a + b == b;
    } else {
      assert (a + b)[1..] == a[1..] + b;
      RenderAttrsAppend(a[1..], b);
    }
  }

  /** Rendering a concatenation of sibling lists is the concatenation of their renderings. */
  lemma {:induction false} RenderAllAppend(a: seq<Node>, b: seq<Node>)
    ensures RenderAll(a + b) == RenderAll(a) + RenderAll(b)
  {
    if a == [] {
      assert a + b == b;
    } else {
      assert (a + b)[1..] == a[1..] + b;
      RenderAllAppend(a[1..], b);
    }
  }

  /** Each child's rendering sits, in order, between the renderings of the children before and after it. */
  lemma RenderAllAt(ns: seq<Node>, i: nat)
    requires i < |ns|
    ensures RenderAll(ns) == RenderAll(ns[..i]) + Render(ns[i]) + RenderAll(ns[i + 1..])
  {
    var before, after := ns[..i], ns[i + 1..];
    assert ns == before + ([ns[i]] + after);
    RenderAllAppend(before, [ns[i]] + after);
    assert ([ns[i]] + after)[1..] == after;
  }

  // ---------------------------------------------------------------------------
  // What each builder writes

  /** `t` writes its text verbatim. */
  lemma TextRenders(text: string)
    ensures Render(T(text)) == text
  {
  }

  /**
    `tag` writes `<name`, then ` k="v"` per attribute in iteration order, then `>`, the
    children in argument order, and `</name>`.
  */
  lemma TagRenders(name: string, attrs: seq<Attr>, inner: seq<Node>)
    ensures Render(Tag(name, attrs, inner)) == "<" + name + RenderAttrs(attrs) + ">" + RenderAll(inner) + "</" + name + ">"
  {
  }

  /** Without attributes, `tag` yields `<name>` + children + `</name>`. */
  lemma PlainTagRenders(name: string, inner: seq<Node>)
    ensures Render(PlainTag(name, inner)) == "<" + name + ">" + RenderAll(inner) + "</" + name + ">"
  {
  }

  /** `ifNotNull` writes nothing for a null guard and exactly the wrapped node otherwise. */
  lemma IfNotNullRenders<G>(guard: Option<G>, inner: Node)
    ensures guard.None? ==> Render(IfNotNull(guard, inner)) == ""
    ensures guard.Some? ==> Render(IfNotNull(guard, inner)) == Render(inner)
  {
  }

  /** `a` writes its single `href` attribute. */
  lemma AnchorRenders(href: string, inner: seq<Node>)
    ensures Render(A(href, inner)) == "<a href=\"" + href + "\">" + RenderAll(inner) + "</a>"
  {
    AnchorOpen(href);
    assert CloseTag("a") == "</a>";
  }

  lemma AnchorOpen(href: string)
    ensures OpenTag("a", [("href", href)]) == "<a href=\"" + href + "\">"
  {
    var attr := RenderAttr(("href", href));
    assert RenderAttrs([("href", href)]) == attr + RenderAttrs([]);
    var s1 := " " + "href";
    assert s1 == " href";
    var s2 := s1 + "=\"";
    assert s2 == " href=\"";
    assert attr == s2 + href + "\"";
    var o1 := "<" + "a";
    assert o1 == "<a";
    assert OpenTag("a", [("href", href)]) == o1 + attr + ">";
    assert o1 + s2 == "<a href=\"";
  }

  lemma DivRenders(inner: seq<Node>)
    ensures Render(Div(inner)) == "<div>" + RenderAll(inner) + "</div>"
  {
  }

  lemma SpanRenders(inner: seq<Node>)
    ensures Render(Span(inner)) == "<span>" + RenderAll(inner) + "</span>"
  {
  }

  /** A text child is emitted unchanged even when it holds markup: the builder never escapes. */
  lemma NoEscaping(name: string, s: string)
    ensures Render(PlainTag(name, [T(s)])) == "<" + name + ">" + s + "</" + name + ">"
  {
    PlainTagRenders(name, [T(s)]);
    assert RenderAll([T(s)]) == Render(T(s)) + RenderAll([]);
  }

  // ---------------------------------------------------------------------------
  // The Writer the Java closures append to, and the serialiser over it

  /** A character sink standing for `java.io.Writer`; `written` is everything appended so far. */
  class Writer {
    var written: string

    constructor ()
      ensures written == ""
    {
      written := "";
    }

    method Append(s: string)
      modifies this
      ensures written == old(written) + s
    {
      written := written + s;
    }
  }

  /** The body of the attribute loop in `tag`: one ` k="v"`. */
  method AcceptAttr(a: Attr, w: Writer)
    modifies w
    ensures w.written == old(w.written) + RenderAttr(a)
  {
    var (k, v) := a;
    w.Append(" ");
    w.Append(k);
    w.Append("=\"");
    w.Append(v);
    w.Append("\"");
  }

  /** The opening tag: `<`, the name, each attribute in iteration order, `>`. */
  method AcceptOpen(name: string, attrs: seq<Attr>, w: Writer)
    modifies w
    ensures w.written == old(w.written) + OpenTag(name, attrs)
  {
    w.Append("<");
    w.Append(name);
    for i := 0 to |attrs|
      invariant w.written == old(w.written) + "<" + name + RenderAttrs(attrs[..i])
    {
      AcceptAttr(attrs[i], w);
      assert attrs[..i + 1] == attrs[..i] + [attrs[i]];
      RenderAttrsAppend(attrs[..i], [attrs[i]]);
      assert RenderAttrs([attrs[i]]) == RenderAttr(attrs[i]) + RenderAttrs([]);
    }
    assert attrs[..|attrs|] == attrs;
    w.Append(">");
  }

  /** `HtmlWriter.accept(w)`: appends the node's rendering to `w`, step by step as the closures do. */
  method Accept(n: Node, w: Writer)
    modifies w
    ensures w.written == old(w.written) + Render(n)
    decreases n, 1
  {
    match n
    case Text(s) =>
      w.Append(s);
    case Element(name, attrs, children) =>
      AcceptOpen(name, attrs, w);
      AcceptChildren(children, w);
      AcceptClose(name, w);
    case Cond(present, inner) =>
      if present {
        Accept(inner, w);
      }
  }

  /** The closing tag: `</`, the name, `>`. */
  method AcceptClose(name: string, w: Writer)
    modifies w
    ensures w.written == old(w.written) + CloseTag(name)
  {
    w.Append("</");
    w.Append(name);
    w.Append(">");
  }

  /** The child loop of `tag`: each child writes itself, in argument order. */
  method AcceptChildren(children: seq<Node>, w: Writer)
    modifies w
    ensures w.written == old(w.written) + RenderAll(children)
    decreases children, 0
  {
    for i := 0 to |children|
      invariant w.written == old(w.written) + RenderAll(children[..i])
    {
      Accept(children[i], w);
      assert children[..i + 1] == children[..i] + [children[i]];
      RenderAllAppend(children[..i], [children[i]]);
      assert RenderAll([children[i]]) == Render(children[i]) + RenderAll([]);
    }
    assert children[..|children|] == children;
  }

  // ---------------------------------------------------------------------------
  // Balanced tags: the output read as a stream of open, text and close events

  datatype Event = Open(name: string, attrs: seq<Attr>) | Chars(s: string) | Close(name: string)

  /** The events a node produces, in output order. */
  function Events(n: Node): seq<Event>
    decreases n
  {
    match n
    case Text(s) => [Chars(s)]
    case Element(name, attrs, children) => [Open(name, attrs)] + EventsAll(children) + [Close(name)]
    case Cond(present, inner) => if present then Events(inner) else []
  }

  function EventsAll(ns: seq<Node>): seq<Event>
    decreases ns
  {
    if ns == [] then [] else Events(ns[0]) + EventsAll(ns[1..])
  }

  /** The characters one event stands for. */
  function Emit(e: Event): string {
    match e
    case Open(name, attrs) => OpenTag(name, attrs)
    case Chars(s) => s
    case Close(name) => CloseTag(name)
  }

  function EmitAll(es: seq<Event>): string {
    if es == [] then "" else Emit(es[0]) + EmitAll(es[1..])
  }

  /**
    Runs a stack over the events: an open pushes its name, a close must match the
    innermost open name and pops it. Returns the final stack, or None on a mismatch.
  */
  function Check(es: seq<Event>, stack: seq<string>): Option<seq<string>> {
    if es == [] then Some(stack)
    else match es[0]
      case Open(name, _) => Check(es[1..], [name] + stack)
      case Chars(_) => Check(es[1..], stack)
      case Close(name) =>
        if stack != [] && stack[0] == name then Check(es[1..], stack[1..]) else None
  }

  /** Every close matches the innermost open element, and nothing is left open. */
  predicate Balanced(es: seq<Event>) {
    Check(es, []) == Some([])
  }

  lemma {:induction false} EmitAllAppend(a: seq<Event>, b: seq<Event>)
    ensures EmitAll(a + b) == EmitAll(a) + EmitAll(b)
  {
    if a == [] {
      assert a + b == b;
    } else {
      assert (a + b)[1..] == a[1..] + b;
      EmitAllAppend(a[1..], b);
    }
  }

  /** The rendering is exactly the emission of the node's events. */
  lemma {:induction false} RenderIsEmitted(n: Node)
    ensures Render(n) == EmitAll(Events(n))
    decreases n, 1
  {
    match n
    case Text(s) =>
      assert EmitAll([Chars(s)]) == s + EmitAll([]);
    case Element(name, attrs, children) =>
      RenderAllIsEmitted(children);
      EmitAllAppend([Open(name, attrs)] + EventsAll(children), [Close(name)]);
      EmitAllAppend([Open(name, attrs)], EventsAll(children));
      assert EmitAll([Open(name, attrs)]) == Emit(Open(name, attrs)) + EmitAll([]);
      assert EmitAll([Close(name)]) == Emit(Close(name)) + EmitAll([]);
    case Cond(present, inner) =>
      if present {
        RenderIsEmitted(inner);
      }
  }

  lemma {:induction false} RenderAllIsEmitted(ns: seq<Node>)
    ensures RenderAll(ns) == EmitAll(EventsAll(ns))
    decreases ns, 0
  {
    if ns != [] {
      RenderIsEmitted(ns[0]);
      RenderAllIsEmitted(ns[1..]);
      EmitAllAppend(Events(ns[0]), EventsAll(ns[1..]));
    }
  }

  lemma {:induction false} CheckChars(s: string, rest: seq<Event>, stack: seq<string>)
    ensures Check([Chars(s)] + rest, stack) == Check(rest, stack)
  {
  }

  /** A node's events leave any enclosing stack exactly as they found it. */
  lemma {:induction false} EventsNeutral(n: Node, rest: seq<Event>, stack: seq<string>)
    ensures Check(Events(n) + rest, stack) == Check(rest, stack)
    decreases n, 1
  {
    match n
    case Text(s) =>
      CheckChars(s, rest, stack);
    case Element(name, attrs, children) =>
      var es := [Open(name, attrs)] + EventsAll(children) + [Close(name)];
      assert es + rest == [Open(name, attrs)] + (EventsAll(children) + ([Close(name)] + rest));
      assert (es + rest)[1..] == EventsAll(children) + ([Close(name)] + rest);
      EventsAllNeutral(children, [Close(name)] + rest, [name] + stack);
      assert ([Close(name)] + rest)[1..] == rest;
      assert ([name] + stack)[1..] == stack;
    case Cond(present, inner) =>
      if present {
        EventsNeutral(inner, rest, stack);
      } else {
        assert Events(n) + rest == rest;
      }
  }

  lemma {:induction false} EventsAllNeutral(ns: seq<Node>, rest: seq<Event>, stack: seq<string>)
    ensures Check(EventsAll(ns) + rest, stack) == Check(rest, stack)
    decreases ns, 0
  {
    if ns == [] {
      assert EventsAll(ns) + rest == rest;
    } else {
      assert EventsAll(ns) + rest == Events(ns[0]) + (EventsAll(ns[1..]) + rest);
      EventsNeutral(ns[0], EventsAll(ns[1..]) + rest, stack);
      EventsAllNeutral(ns[1..], rest, stack);
    }
  }

  /** Every built fragment is tag-balanced: its output is the emission of a balanced event stream. */
  lemma RenderBalanced(n: Node)
    ensures Balanced(Events(n)) && Render(n) == EmitAll(Events(n))
  {
    EventsNeutral(n, [], []);
    assert Events(n) + [] == Events(n);
    RenderIsEmitted(n);
  }
}
