/** The generator (src/compiler/generator.ts): SVG text from an element tree,
    one tab of indentation per level. The source walks the tree with two
    stacks, the tags of the open elements and the siblings still to print at
    each open level; `Generate` is that loop, proved equal to the recursive
    serialiser `Serialize`. */
module Generator {
  import opened Results
  import opened Types
  import opened Numbers
  import Seqs

  /** `d` tabs. */
  function Indent(d: nat): (r: string)
    ensures |r| == d && forall i :: 0 <= i < |r| ==> r[i] == '\t'
  {
    if d == 0 then "" else Indent(d - 1) + "\t"
  }

  /** How an attribute value is printed: text as is, integers in decimal, and
      the names of the two non-values. */
  function RenderVal(v: Val): string {
    match v
    case Str(s) => s
    case Num(n) => IntToString(n)
    case NaN => "NaN"
    case Undef => "undefined"
  }

  function RenderAttr(a: Attr): string {
    a.key + "=\"" + RenderVal(a.val) + "\""
  }

  /** The attributes in order, separated by single spaces. */
  function RenderAttrs(attrs: seq<Attr>): string
    decreases |attrs|
  {
    if |attrs| == 0 then ""
    else if |attrs| == 1 then RenderAttr(attrs[0])
    else RenderAttr(attrs[0]) + " " + RenderAttrs(attrs[1..])
  }

  /** A printed integer reads back as itself with `parseInt` (after the sign
      for a negative one); text is printed verbatim. */
  lemma ValReadBack(v: Val)
    ensures v.Str? ==> RenderVal(v) == v.s
    ensures v.Num? && v.n >= 0 ==> ParseInt(RenderVal(v)) == Some(v.n)
    ensures v.Num? && v.n < 0 ==> var r := RenderVal(v); |r| > 1 && r[0] == '-' && ParseInt(r[1..]) == Some(-v.n)
  {
  }

  /** A printed attribute splits back into its key and its rendered value at
      the `="` after the key and the final quote. */
  lemma AttrReadBack(a: Attr)
    ensures var r, v := RenderAttr(a), RenderVal(a.val);
            |r| == |a.key| + |v| + 3 && r[..|a.key|] == a.key && r[|a.key|..|a.key| + 2] == "=\""
            && r[|a.key| + 2..|r| - 1] == v && r[|r| - 1] == '"'
  {
    var r, v := RenderAttr(a), RenderVal(a.val);
    assert r == a.key + ("=\"" + v + "\"");
    assert r[|a.key|..] == "=\"" + v + "\"";
  }

  /** The printed attribute list is empty exactly when there are no
      attributes; otherwise it starts with the first and ends with the last. */
  lemma {:induction false} AttrsEnds(attrs: seq<Attr>)
    ensures RenderAttrs(attrs) == "" <==> |attrs| == 0
    ensures |attrs| > 0 ==> var r, f := RenderAttrs(attrs), RenderAttr(attrs[0]);
                            |r| >= |f| && r[..|f|] == f
    ensures |attrs| > 0 ==> var r, l := RenderAttrs(attrs), RenderAttr(attrs[|attrs| - 1]);
                            |r| >= |l| && r[|r| - |l|..] == l
    decreases |attrs|
  {
    if |attrs| > 0 {
      AttrReadBack(attrs[0]);
    }
    if |attrs| > 1 {
      var first, rest := RenderAttr(attrs[0]), RenderAttrs(attrs[1..]);
      var r := first + " " + rest;
      AttrsEnds(attrs[1..]);
      assert RenderAttrs(attrs) == r;
      assert r[..|first|] == first;
      assert r[|r| - |rest|..] == rest;
      assert attrs[1..][|attrs| - 2] == attrs[|attrs| - 1];
    }
  }

  /** Appending an attribute adds one space and its `key="value"` text. */
  lemma {:induction false} RenderAttrsSnoc(attrs: seq<Attr>, a: Attr)
    ensures RenderAttrs(attrs + [a]) == if |attrs| == 0 then RenderAttr(a) else RenderAttrs(attrs) + " " + RenderAttr(a)
    decreases |attrs|
  {
    if |attrs| == 1 {
      assert attrs + [a] == [attrs[0], a];
      assert (attrs + [a])[1..] == [a];
    } else if |attrs| > 1 {
      assert (attrs + [a])[0] == attrs[0];
      assert (attrs + [a])[1..] == attrs[1..] + [a];
      RenderAttrsSnoc(attrs[1..], a);
      Seqs.Regroup3(RenderAttr(attrs[0]) + " ", RenderAttrs(attrs[1..]) + " ", RenderAttr(a));
    }
  }

  /** An opening tag: there is always one space after the tag's name. */
  function OpenTag(e: Element): string {
    "<" + e.tag + " " + RenderAttrs(e.attrs) + ">"
  }

  function CloseTag(tag: string): string {
    "</" + tag + ">\n"
  }

  /** An opening tag is `<`, the name and a space, then the attributes and `>`
      (nothing between the space and `>` when there are no attributes); the
      closing tag repeats the same name between `</` and `>`. */
  lemma TagsMatch(e: Element)
    ensures var o, n := OpenTag(e), |e.tag|;
            |o| >= n + 3 && o[..n + 2] == "<" + e.tag + " " && o[|o| - 1] == '>'
            && (|o| == n + 3 <==> |e.attrs| == 0)
    ensures var c, n := CloseTag(e.tag), |e.tag|;
            |c| == n + 4 && c[..2] == "</" && c[2..n + 2] == e.tag && c[n + 2..] == ">\n"
  {
    var o, c, n := OpenTag(e), CloseTag(e.tag), |e.tag|;
    AttrsEnds(e.attrs);
    assert o == ("<" + e.tag + " ") + (RenderAttrs(e.attrs) + ">");
    assert c == "</" + (e.tag + ">\n");
    assert c[2..] == e.tag + ">\n";
  }

  // ---------------------------------------------------------------------------
  // The recursive serialiser

  /** An element at depth `d`: a childless element on one line; otherwise its
      opening tag on a line, its children one level deeper, and its closing
      tag on a line of its own at its own depth. */
  function Serialize(e: Element, d: nat): (r: string)
    decreases e, 1
  {
    var open := Indent(d) + OpenTag(e);
    if |e.body| == 0 then
      open + CloseTag(e.tag)
    else
      open + "\n" + SerializeAll(e.body, d + 1) + Indent(d) + CloseTag(e.tag)
  }

  /** Siblings in order. */
  function SerializeAll(es: seq<Element>, d: nat): (r: string)
    decreases es, 0
  {
    if |es| == 0 then "" else Serialize(es[0], d) + SerializeAll(es[1..], d)
  }

  /** Every element's text ends with its own closing tag and a line break. */
  lemma EndsWithClose(e: Element, d: nat)
    ensures var s, c := Serialize(e, d), CloseTag(e.tag);
            |s| >= |c| && s[|s| - |c|..] == c && s[|s| - 1] == '\n'
  {
    var s, c := Serialize(e, d), CloseTag(e.tag);
    var open := Indent(d) + OpenTag(e);
    var front := if |e.body| == 0 then open else open + "\n" + SerializeAll(e.body, d + 1) + Indent(d);
    assert s == front + c;
  }

  lemma {:induction false} SerializeAllAppend(a: seq<Element>, b: seq<Element>, d: nat)
    ensures SerializeAll(a + b, d) == SerializeAll(a, d) + SerializeAll(b, d)
    decreases |a|
  {
    if |a| == 0 {
      assert a + b == b;
    } else {
      assert (a + b)[1..] == a[1..] + b;
      SerializeAllAppend(a[1..], b, d);
    }
  }

  /** No tag in the tree is empty. */
  predicate WellTagged(e: Element)
    decreases e, 1
  {
    e.tag != "" && AllWellTagged(e.body)
  }

  predicate AllWellTagged(es: seq<Element>)
    decreases es, 0
  {
    forall i :: 0 <= i < |es| ==> WellTagged(es[i])
  }

  // ---------------------------------------------------------------------------
  // The loop

  /** How many elements a tree holds. */
  function Size(e: Element): nat
    decreases e, 1
  {
    1 + SizeAll(e.body)
  }

  function SizeAll(es: seq<Element>): nat
    decreases es, 0
  {
    if |es| == 0 then 0 else Size(es[0]) + SizeAll(es[1..])
  }

  /** Elements still to print on the sibling stack. */
  function Pending(rest: seq<seq<Element>>): nat
    decreases |rest|
  {
    if |rest| == 0 then 0 else Pending(rest[..|rest| - 1]) + SizeAll(rest[|rest| - 1])
  }

  /** What printing the closing tags of the open elements, each followed by the
      siblings waiting at its level, adds: the text the loop still owes once
      the current siblings are printed. */
  function Unwind(parent: seq<string>, rest: seq<seq<Element>>): string
    requires |parent| == |rest|
    decreases |parent|
  {
    if |parent| == 0 then ""
    else
      var d := |parent| - 1;
      Indent(d) + CloseTag(parent[d]) + SerializeAll(rest[d], d) + Unwind(parent[..d], rest[..d])
  }

  /** Opening an element with children: what was owed is its opening line,
      its children one level deeper, then the unwinding with its tag and its
      remaining siblings pushed. */
  lemma OpenParent(nodes: seq<Element>, parent: seq<string>, rest: seq<seq<Element>>)
    requires |nodes| > 0 && |nodes[0].body| > 0 && |parent| == |rest|
    ensures var c := nodes[0];
            var d := |parent|;
            SerializeAll(nodes, d) + Unwind(parent, rest)
            == (Indent(d) + OpenTag(c) + "\n") + (SerializeAll(c.body, d + 1) + Unwind(parent + [c.tag], rest + [nodes[1..]]))
  {
    var c := nodes[0];
    var d := |parent|;
    var p2, r2 := parent + [c.tag], rest + [nodes[1..]];
    assert p2[..d] == parent && r2[..d] == rest;
    var open, children, close := Indent(d) + OpenTag(c) + "\n", SerializeAll(c.body, d + 1), Indent(d) + CloseTag(c.tag);
    var siblings, owed := SerializeAll(nodes[1..], d), Unwind(parent, rest);
    assert Serialize(c, d) == open + children + close;
    assert SerializeAll(nodes, d) == Serialize(c, d) + siblings;
    assert Unwind(p2, r2) == close + siblings + owed;
    Seqs.Regroup(open, children, close, siblings, owed);
  }

  /** Printing a childless element: its line, then what was owed after it. */
  lemma PrintLeaf(nodes: seq<Element>, parent: seq<string>, rest: seq<seq<Element>>)
    requires |nodes| > 0 && |nodes[0].body| == 0 && |parent| == |rest|
    ensures var c := nodes[0];
            var d := |parent|;
            SerializeAll(nodes, d) + Unwind(parent, rest)
            == (Indent(d) + OpenTag(c) + CloseTag(c.tag)) + (SerializeAll(nodes[1..], d) + Unwind(parent, rest))
  {
    var c := nodes[0];
    var d := |parent|;
    var line, siblings, owed := Indent(d) + OpenTag(c) + CloseTag(c.tag), SerializeAll(nodes[1..], d), Unwind(parent, rest);
    assert SerializeAll(nodes, d) == line + siblings;
    Seqs.Regroup3(line, siblings, owed);
  }

  /** Popping a level: its closing line, then the siblings saved with it. */
  lemma CloseLevel(parent: seq<string>, rest: seq<seq<Element>>)
    requires 0 < |parent| == |rest|
    ensures var d := |parent| - 1;
            Unwind(parent, rest)
            == (Indent(d) + CloseTag(parent[d])) + (SerializeAll(rest[d], d) + Unwind(parent[..d], rest[..d]))
  {
    var d := |parent| - 1;
    var close, siblings, owed := Indent(d) + CloseTag(parent[d]), SerializeAll(rest[d], d), Unwind(parent[..d], rest[..d]);
    assert Unwind(parent, rest) == close + siblings + owed;
    Seqs.Regroup3(close, siblings, owed);
  }

  lemma PendingPush(rest: seq<seq<Element>>, siblings: seq<Element>)
    ensures Pending(rest + [siblings]) == Pending(rest) + SizeAll(siblings)
  {
    assert (rest + [siblings])[..|rest|] == rest;
  }

  lemma SizeFirst(nodes: seq<Element>)
    requires |nodes| > 0
    ensures SizeAll(nodes) == 1 + SizeAll(nodes[0].body) + SizeAll(nodes[1..])
  {
  }

  /** The loop's stacks hold no empty tag. */
  predicate StacksTagged(nodes: seq<Element>, parent: seq<string>, rest: seq<seq<Element>>) {
    && AllWellTagged(nodes)
    && (forall i :: 0 <= i < |rest| ==> AllWellTagged(rest[i]))
    && (forall i :: 0 <= i < |parent| ==> parent[i] != "")
  }

  lemma PushTagged(nodes: seq<Element>, parent: seq<string>, rest: seq<seq<Element>>)
    requires |nodes| > 0 && StacksTagged(nodes, parent, rest)
    ensures StacksTagged(nodes[0].body, parent + [nodes[0].tag], rest + [nodes[1..]])
    ensures StacksTagged(nodes[1..], parent, rest)
  {
    assert WellTagged(nodes[0]);
    assert AllWellTagged(nodes[1..]) by {
      forall i | 0 <= i < |nodes[1..]| ensures WellTagged(nodes[1..][i]) { assert nodes[1..][i] == nodes[i + 1]; }
    }
  }

  lemma PopTagged(nodes: seq<Element>, parent: seq<string>, rest: seq<seq<Element>>)
    requires 0 < |parent| == |rest| && StacksTagged(nodes, parent, rest)
    ensures StacksTagged(rest[|rest| - 1], parent[..|parent| - 1], rest[..|rest| - 1])
    ensures parent[|parent| - 1] != ""
  {
  }

  /** The loop invariant: the stacks have equal heights, and for a tree with no
      empty tag, what is printed followed by what is owed is the serialised root. */
  predicate Owes(root: Element, text: string, nodes: seq<Element>, parent: seq<string>, rest: seq<seq<Element>>) {
    && |parent| == |rest|
    && (WellTagged(root) ==> StacksTagged(nodes, parent, rest))
    && (WellTagged(root) ==> text + (SerializeAll(nodes, |parent|) + Unwind(parent, rest)) == Serialize(root, 0))
  }

  lemma PushStep(root: Element, text: string, nodes: seq<Element>, parent: seq<string>, rest: seq<seq<Element>>)
    requires Owes(root, text, nodes, parent, rest) && |nodes| > 0 && |nodes[0].body| > 0
    ensures var c := nodes[0];
            Owes(root, text + (Indent(|parent|) + OpenTag(c) + "\n"), c.body, parent + [c.tag], rest + [nodes[1..]])
  {
    var c := nodes[0];
    var d := |parent|;
    var piece := Indent(d) + OpenTag(c) + "\n";
    var p2, r2 := parent + [c.tag], rest + [nodes[1..]];
    assert |p2| == d + 1 == |r2|;
    var after := SerializeAll(c.body, d + 1) + Unwind(p2, r2);
    if WellTagged(root) {
      PushTagged(nodes, parent, rest);
      OpenParent(nodes, parent, rest);
      Seqs.Regroup3(text, piece, after);
      assert (text + piece) + (SerializeAll(c.body, |p2|) + Unwind(p2, r2)) == Serialize(root, 0);
    }
  }

  lemma LeafStep(root: Element, text: string, nodes: seq<Element>, parent: seq<string>, rest: seq<seq<Element>>)
    requires Owes(root, text, nodes, parent, rest) && |nodes| > 0 && |nodes[0].body| == 0
    ensures var c := nodes[0];
            Owes(root, text + (Indent(|parent|) + OpenTag(c) + CloseTag(c.tag)), nodes[1..], parent, rest)
  {
    var c := nodes[0];
    var d := |parent|;
    var piece := Indent(d) + OpenTag(c) + CloseTag(c.tag);
    var after := SerializeAll(nodes[1..], d) + Unwind(parent, rest);
    if WellTagged(root) {
      PushTagged(nodes, parent, rest);
      PrintLeaf(nodes, parent, rest);
      Seqs.Regroup3(text, piece, after);
    }
  }

  lemma PopStep(root: Element, text: string, parent: seq<string>, rest: seq<seq<Element>>)
    requires Owes(root, text, [], parent, rest) && |rest| > 0
    ensures var d := |rest| - 1;
            WellTagged(root) ==> parent[d] != ""
    ensures var d := |rest| - 1;
            Owes(root, text + (Indent(d) + CloseTag(parent[d])), rest[d], parent[..d], rest[..d])
  {
    var d := |rest| - 1;
    var piece := Indent(d) + CloseTag(parent[d]);
    var after := SerializeAll(rest[d], d) + Unwind(parent[..d], rest[..d]);
    if WellTagged(root) {
      PopTagged([], parent, rest);
      assert SerializeAll([], |parent|) + Unwind(parent, rest) == Unwind(parent, rest);
      CloseLevel(parent, rest);
      Seqs.Regroup3(text, piece, after);
      assert |parent[..d]| == d;
    }
  }

  /** The generator: a depth-first walk with a stack of open tags and a stack
      of the siblings still to print at each open level. A popped tag that is
      empty is skipped together with the siblings saved with it. */
  method Generate(root: Element) returns (text: string)
    ensures WellTagged(root) ==> text == Serialize(root, 0)
  {
    var nodes: seq<Element> := [root];
    var parent: seq<string> := [];
    var rest: seq<seq<Element>> := [];
    text := "";
    assert SerializeAll(nodes, 0) == Serialize(root, 0) + "";
    while |nodes| > 0 || |rest| > 0
      invariant Owes(root, text, nodes, parent, rest)
      decreases SizeAll(nodes) + Pending(rest), |rest|
    {
      ghost var measure := SizeAll(nodes) + Pending(rest);
      if |nodes| > 0 {
        var current := nodes[0];
        var d := |parent|;
        SizeFirst(nodes);
        if |current.body| > 0 {
          PushStep(root, text, nodes, parent, rest);
          PendingPush(rest, nodes[1..]);
          text := text + (Indent(d) + OpenTag(current) + "\n");
          rest := rest + [nodes[1..]];
          parent := parent + [current.tag];
          nodes := current.body;
        } else {
          LeafStep(root, text, nodes, parent, rest);
          text := text + (Indent(d) + OpenTag(current) + CloseTag(current.tag));
          nodes := nodes[1..];
        }
      } else {
        var d := |rest| - 1;
        var next := rest[d];
        var tag := parent[d];
        PopStep(root, text, parent, rest);
        assert measure == Pending(rest[..d]) + SizeAll(next);
        rest := rest[..d];
        parent := parent[..d];
        if tag != "" {
          text := text + (Indent(d) + CloseTag(tag));
          nodes := next;
        }
      }
    }
  }
}
