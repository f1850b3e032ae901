/** The usage examples of the builder's documentation, stated on the model. */
module Examples {
  import opened Dom
  import opened Tokens
  import opened Descriptors
  import opened Contents
  import opened Builder

  /** `$g('xxx')` is a `div` with class `xxx`. */
  lemma ClassOnly()
    ensures Parse("xxx") == Descriptor("div", "", "xxx")
  {
    assert Split("xxx") == ["xxx"];
    PlainDescriptor("xxx");
  }

  /** `$g('', ...)` is a `div` with no id and no class: the empty descriptor is
      one empty class token. */
  lemma EmptyDescriptor()
    ensures Parse("") == Descriptor("div", "", "")
  {
    assert Split("") == [""];
    PlainDescriptor("");
  }

  /** `$g('#div2 xxx', ...)` is a `div` with id `div2` and class `xxx`; so is
      every descriptor made of one `#` token and one class token. */
  lemma IdAndClass(id: string, cls: string)
    requires ' ' !in id && ' ' !in cls && IsClassToken(cls)
    ensures Parse("#" + id + " " + cls) == Descriptor("div", id, cls)
  {
    var tokens := ["#" + id, cls];
    assert Join(tokens) == "#" + id + " " + cls by {
      assert Join(tokens[1..]) == cls;
    }
    assert ' ' !in "#" + id;
    assert forall t | t in tokens :: ' ' !in t;
    SplitJoin(tokens);
    var first := Step(Scan("div", "", ""), "#" + id);
    assert ("#" + id)[1..] == id;
    assert first == Scan("div", id, "");
    assert tokens[..1] == ["#" + id] && tokens[..1][..0] == [];
    assert ScanTokens(tokens[..1]) == first;
    assert ScanTokens(tokens) == Step(first, cls) == Scan("div", id, " " + cls);
    assert DropFirst(" " + cls) == cls;
  }

  /** `$g('.a', { href: 'link' }, 'the link')`: an `a` element whose `href`
      property is the bag's value and whose only child is the text. */
  method Anchor(link: Value, rejects: (string, Value) -> bool) returns (el: Element)
    ensures el.tag == "a" && el.id == "" && el.className == ""
    ensures el.props == map["href" := Attr(link)]
    ensures el.style == map[]
    ensures el.children == [Text("the link")]
  {
    assert Split(".a") == [".a"];
    assert [".a"][..0] == [];
    assert Parse(".a") == Descriptor("a", "", "");
    var entries := map["href" := link];
    var bag := new Bag(entries);
    var r := Gen(DescString(".a"), Attrs(bag), StrContent("the link"), rejects);
    assert WithoutStyle(entries) == entries;
    assert AttrSlots(entries) == map["href" := Attr(link)];
    el := r.el;
  }

  /** `$g('', 'xxx')`: the second argument is the content, so the result is a
      `div` with no id, no class and one text child `xxx`. */
  method TextOnly(rejects: (string, Value) -> bool) returns (el: Element)
    ensures el.tag == "div" && el.id == "" && el.className == ""
    ensures el.props == map[] && el.style == map[]
    ensures el.children == [Text("xxx")]
  {
    EmptyDescriptor();
    var r := Gen(DescString(""), NotAttrs(StrContent("xxx")), NoContent, rejects);
    assert AttrSlots(WithoutStyle(map[])) == map[];
    el := r.el;
  }

  /** A bag `{ style: { color: red, bogusProp: one } }` where the host refuses
      `bogusProp`: `color` is still applied, and the bag loses its `style`. */
  lemma StyleFailureSkipped(red: Value, one: Value, rejects: (string, Value) -> bool)
    requires !rejects("color", red) && rejects("bogusProp", one)
    ensures var bag := map["style" := Record(map["color" := red, "bogusProp" := one])];
      && StylesApplied(bag, rejects) == map["color" := red]
      && WithoutStyle(bag) == map[]
  {
    var styles := map["color" := red, "bogusProp" := one];
    var bag := map["style" := Record(styles)];
    assert StyleEntry(bag) == Some(Record(styles));
    assert Accepted(styles, rejects) == map["color" := red];
    assert WithoutStyle(bag).Keys == {};
  }

  /** Two `[name, node]` entries: both nodes are appended in order and bound
      under their names. */
  lemma NamedPairs(y: Node, z: Node)
    ensures ChildrenOf([Named("child1", y), Named("child2", z)]) == [y, z]
    ensures Bind(map[], [Named("child1", y), Named("child2", z)])
      == map["child1" := Capture(y), "child2" := Capture(z)]
  {
    var items := [Named("child1", y), Named("child2", z)];
    assert items[..1] == [Named("child1", y)] && items[..1][..0] == [];
    assert ChildrenOf(items[..1]) == [y];
    assert Bind(map[], items[..1]) == map["child1" := Capture(y)];
  }

  /** Three `[node]` entries built by `$g('y', ...)`, `$g('z w', ...)` and
      `$g('#q z', ...)`: the first is bound by its class `y`, the second by its
      first class `z`, the third by its id `q` even though it has a class. */
  lemma WrappedNodes(y: Element, z: Element, q: Element)
    requires y.id == "" && y.className == "y"
    requires z.id == "" && z.className == "z w"
    requires q.id == "q" && q.className == "z"
    ensures Bind(map[], [Wrapped(Elem(y)), Wrapped(Elem(z)), Wrapped(Elem(q))])
      == map["y" := Capture(Elem(y)), "z" := Capture(Elem(z)), "q" := Capture(Elem(q))]
  {
    assert Split("y") == ["y"];
    assert FirstSpace("z w") == 1;
    assert FirstToken("z w") == "z";
    var items := [Wrapped(Elem(y)), Wrapped(Elem(z)), Wrapped(Elem(q))];
    assert items[..2] == [Wrapped(Elem(y)), Wrapped(Elem(z))];
    assert items[..2][..1] == [Wrapped(Elem(y))] && items[..2][..1][..0] == [];
    assert CaptureOf(items[0]) == Some(Binding("y", Elem(y)));
    assert CaptureOf(items[1]) == Some(Binding("z", Elem(z)));
    assert CaptureOf(items[2]) == Some(Binding("q", Elem(q)));
    var w := [Wrapped(Elem(y))];
    assert w[..0] == [] && w[|w| - 1] == items[0];
    var none: map<string, Slot> := map[];
    assert Bind(none, w[..0]) == none;
    assert CaptureOf(w[0]) == Some(Binding("y", Elem(y)));
    var one := Bind(none, w);
    assert one == map["y" := Capture(Elem(y))];
    var two := Bind(map[], items[..2]);
    assert two == one["z" := Capture(Elem(z))];
  }

  /** A class name with a leading space (from a descriptor such as `'.b  x'`)
      has an empty first token, so `[node]` binds the field `''`. */
  lemma LeadingSpaceBindsEmptyName(n: Element)
    requires n.id == "" && n.className == " x"
    ensures CaptureOf(Wrapped(Elem(n))) == Some(Binding("", Elem(n)))
  {
    assert FirstSpace(" x") == 0;
  }
}
