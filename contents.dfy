/** The content argument and how it becomes children and named captures. */
module Contents {
  import opened Dom
  import opened Tokens

  /** One entry of an array given as content. The host throws on a `null` or
      `undefined` entry, on `[name, x]` whose `x` is not a node and on an inner
      array whose first element is not a node, so those shapes have no
      constructor here. */
  datatype Item =
    | NodeItem(n: Node)            // a node
    | Named(name: string, n: Node) // `[name, node]`: an array of length 2
    | Wrapped(n: Node)             // `[node, ...]`: an array of any other length; only its first element is read
    | TextItem(s: string)          // a string, the empty string included
    | Ignored                      // any other value: a number, a boolean, a plain object

  /** The content argument. */
  datatype Content =
    | NoContent                    // undefined, null, false, 0
    | StrContent(s: string)
    | NodeContent(n: Node)
    | ArrayContent(items: seq<Item>)
    | OtherContent                 // any other truthy value: it has neither `nodeType` nor `length`
  {
    predicate Truthy() {
      !NoContent? && !(StrContent? && s == "")
    }
  }

  datatype Binding = Binding(name: string, node: Node)

  /** The field name for a `[node]` entry: the node's id when it is not empty,
      otherwise the first space-separated token of its class name when that is
      not empty, otherwise none. A text node has neither. */
  function CaptureName(n: Node): (name: Option<string>)
    ensures name.Some? <==> n.Elem? && (n.el.id != "" || n.el.className != "")
    ensures name.Some? && n.el.id != "" ==> name.value == n.el.id
    ensures name.Some? && n.el.id == "" ==> name.value == Split(n.el.className)[0]
  {
    if n.Text? then None
    else if n.el.id != "" then Some(n.el.id)
    else if n.el.className != "" then Some(FirstToken(n.el.className))
    else None
  }

  /** The child an entry appends, if any. */
  function ChildOf(item: Item): Option<Node> {
    match item
    case NodeItem(n) => Some(n)
    case Named(_, n) => Some(n)
    case Wrapped(n) => Some(n)
    case TextItem(s) => Some(Text(s))
    case Ignored => None
  }

  /** The field an entry binds, if any. */
  function CaptureOf(item: Item): Option<Binding> {
    match item
    case Named(name, n) => Some(Binding(name, n))
    case Wrapped(n) => if CaptureName(n).Some? then Some(Binding(CaptureName(n).value, n)) else None
    case _ => None
  }

  predicate Binds(item: Item, name: string) {
    CaptureOf(item).Some? && CaptureOf(item).value.name == name
  }

  function AsSeq(o: Option<Node>): seq<Node> {
    if o.Some? then [o.value] else []
  }

  /** The children appended for the entries, left to right. */
  function ChildrenOf(items: seq<Item>): seq<Node> {
    if items == [] then []
    else ChildrenOf(items[..|items| - 1]) + AsSeq(ChildOf(items[|items| - 1]))
  }

  /** The element's properties after binding the entries' fields, left to right. */
  function Bind(props: map<string, Slot>, items: seq<Item>): map<string, Slot> {
    if items == [] then props
    else
      var before := Bind(props, items[..|items| - 1]);
      match CaptureOf(items[|items| - 1])
      case Some(b) => before[b.name := Capture(b.node)]
      case None => before
  }

  /** The number of entries that are not ignored. */
  function Recognized(items: seq<Item>): nat {
    if items == [] then 0
    else (if items[0].Ignored? then 0 else 1) + Recognized(items[1..])
  }

  /** The entries' children are appended in input order: those of a
      concatenation are the children of each part, one after the other. */
  lemma {:induction false} ChildrenConcat(a: seq<Item>, b: seq<Item>)
    ensures ChildrenOf(a + b) == ChildrenOf(a) + ChildrenOf(b)
    decreases |b|
  {
    if b == [] {
      assert a + b == a;
    } else {
      var n := |b| - 1;
      assert (a + b)[..|a + b| - 1] == a + b[..n];
      assert (a + b)[|a + b| - 1] == b[n];
      ChildrenConcat(a, b[..n]);
    }
  }

  /** Every entry that is not ignored adds exactly one child, and ignored ones
      add none. */
  lemma {:induction false} ChildrenCount(items: seq<Item>)
    ensures |ChildrenOf(items)| == Recognized(items)
    decreases |items|
  {
    if items != [] {
      var first := [items[0]];
      assert first + items[1..] == items;
      ChildrenConcat(first, items[1..]);
      assert first[..0] == [];
      ChildrenCount(items[1..]);
    }
  }

  /** The child of entry `i` comes right after the children of the entries
      before it. */
  lemma ChildPosition(items: seq<Item>, i: nat)
    requires i < |items| && !items[i].Ignored?
    ensures |ChildrenOf(items[..i])| < |ChildrenOf(items)|
    ensures ChildrenOf(items)[|ChildrenOf(items[..i])|] == ChildOf(items[i]).value
  {
    assert items == items[..i + 1] + items[i + 1..];
    ChildrenConcat(items[..i + 1], items[i + 1..]);
    assert items[..i + 1][..i] == items[..i];
  }

  /** A field holds the node of the last entry that binds its name. */
  lemma {:induction false} BindLastWins(props: map<string, Slot>, items: seq<Item>, i: nat, b: Binding)
    requires i < |items| && CaptureOf(items[i]) == Some(b)
    requires forall j | i < j < |items| :: !Binds(items[j], b.name)
    ensures b.name in Bind(props, items)
    ensures Bind(props, items)[b.name] == Capture(b.node)
    decreases |items|
  {
    var m := |items| - 1;
    if i < m {
      var before := items[..m];
      assert before[i] == items[i];
      assert forall j | i < j < m :: before[j] == items[j];
      BindLastWins(props, before, i, b);
    }
  }

  /** A name no entry binds keeps whatever the element had under it. */
  lemma {:induction false} BindUntouched(props: map<string, Slot>, items: seq<Item>, name: string)
    requires forall j | 0 <= j < |items| :: !Binds(items[j], name)
    ensures name in Bind(props, items) <==> name in props
    ensures name in props ==> Bind(props, items)[name] == props[name]
    decreases |items|
  {
    if items != [] {
      var m := |items| - 1;
      assert forall j | 0 <= j < m :: items[..m][j] == items[j];
      BindUntouched(props, items[..m], name);
      assert !Binds(items[m], name);
    }
  }

  /** The children the content adds. */
  function ContentChildren(c: Content): (children: seq<Node>)
    ensures !c.Truthy() ==> children == []
    ensures c.StrContent? && c.s != "" ==> children == [Text(c.s)]
    ensures c.NodeContent? ==> children == [c.n]
    ensures c.ArrayContent? ==> |children| == Recognized(c.items)
    ensures c.OtherContent? ==> children == []
  {
    match c
    case StrContent(s) => if s == "" then [] else [Text(s)]
    case NodeContent(n) => [n]
    case ArrayContent(items) => ChildrenCount(items); ChildrenOf(items)
    case _ => []
  }

  /** The properties after the content's fields are bound. */
  function ContentProps(props: map<string, Slot>, c: Content): map<string, Slot> {
    if c.ArrayContent? then Bind(props, c.items) else props
  }

  /** The loop over an array given as content. */
  method AppendItems(el: Element, items: seq<Item>)
    modifies el`children, el`props
    ensures el.children == old(el.children) + ChildrenOf(items)
    ensures el.props == Bind(old(el.props), items)
  {
    var k := 0;
    while k < |items|
      invariant 0 <= k <= |items|
      invariant el.children == old(el.children) + ChildrenOf(items[..k])
      invariant el.props == Bind(old(el.props), items[..k])
    {
      var item := items[k];
      if item.NodeItem? {
        el.AppendChild(item.n);
      } else if item.Named? {
        el.AppendChild(item.n);
        el.SetProperty(item.name, Capture(item.n));
      } else if item.Wrapped? {
        var n := item.n;
        el.AppendChild(n);
        if n.Elem? && n.el.id != "" {
          el.SetProperty(n.el.id, Capture(n));
        } else if n.Elem? && n.el.className != "" {
          var first := FirstToken(n.el.className);
          el.SetProperty(first, Capture(n));
        }
      } else if item.TextItem? {
        el.AppendChild(Text(item.s));
      }
      assert items[..k + 1][..k] == items[..k];
      k := k + 1;
    }
    assert items[..k] == items;
  }

  /** Attaching the content: a non-empty string as one text node, a node as
      the only new child, anything else walked as an array. */
  method AppendContent(el: Element, c: Content)
    modifies el`children, el`props
    ensures el.children == old(el.children) + ContentChildren(c)
    ensures el.props == ContentProps(old(el.props), c)
  {
    if c.Truthy() {
      if c.StrContent? {
        el.AppendChild(Text(c.s));
      } else if c.NodeContent? {
        el.AppendChild(c.n);
      } else if c.ArrayContent? {
        AppendItems(el, c.items);
      }
    }
  }
}
