/** The builder `$g(elDesc, elAttrs, elContent)`: parse the descriptor, create
    the element, apply the attribute bag or take the second argument as
    content, and attach the content. */
module Builder {
  import opened Dom
  import opened Descriptors
  import opened Contents

  /** The first argument: only whether it is a string matters. */
  datatype DescArg = DescString(s: string) | NotAString

  /** The second argument: a plain object is an attribute bag; anything else
      (an array, a node, a string, a number, undefined) may be content. */
  datatype AttrsArg = Attrs(bag: Bag) | NotAttrs(value: Content)

  datatype Error = InvalidDescriptor

  datatype Result = Ok(el: Element) | Err(error: Error)

  /** The bag's `style` entry when it is truthy; only then is it taken apart. */
  function StyleEntry(entries: map<string, Value>): Option<Value> {
    if "style" in entries && entries["style"].Truthy() then Some(entries["style"]) else None
  }

  /** The bag after `delete elAttrs.style`, which happens only for a truthy
      style entry; a falsy one stays and is copied like any other entry. */
  function WithoutStyle(entries: map<string, Value>): (rest: map<string, Value>)
    ensures StyleEntry(entries).Some? ==> rest.Keys == entries.Keys - {"style"}
    ensures StyleEntry(entries).None? ==> rest == entries
    ensures forall k | k in rest :: k in entries && rest[k] == entries[k]
  {
    if StyleEntry(entries).Some? then entries - {"style"} else entries
  }

  /** The style properties the host accepts. */
  function Accepted(styles: map<string, Value>, rejects: (string, Value) -> bool): map<string, Value> {
    map p | p in styles && !rejects(p, styles[p]) :: styles[p]
  }

  /** The element's style after the bag is applied. */
  function StylesApplied(entries: map<string, Value>, rejects: (string, Value) -> bool): (style: map<string, Value>)
    ensures forall p | p in style :: StyleEntry(entries).Some? && p in StyleEntry(entries).value.OwnProperties()
    ensures forall p | p in style :: style[p] == StyleEntry(entries).value.OwnProperties()[p] && !rejects(p, style[p])
    ensures StyleEntry(entries).Some? ==> forall p | p in StyleEntry(entries).value.OwnProperties() ::
      p in style <==> !rejects(p, StyleEntry(entries).value.OwnProperties()[p])
  {
    match StyleEntry(entries)
    case Some(v) => Accepted(v.OwnProperties(), rejects)
    case None => map[]
  }

  /** Bag entries as element properties. */
  function AttrSlots(attrs: map<string, Value>): map<string, Slot> {
    map k | k in attrs :: Attr(attrs[k])
  }

  /** Which argument is the content. */
  function Routed(second: AttrsArg, third: Content): (content: Content)
    ensures second.Attrs? ==> content == third
    ensures second.NotAttrs? && second.value.Truthy() ==> content == second.value
    ensures second.NotAttrs? && !second.value.Truthy() ==> content == third
    ensures content.Truthy() ==> content == third || second == NotAttrs(content)
  {
    if second.NotAttrs? && second.value.Truthy() then second.value else third
  }

  /** `for (prop in styles) try { el.style[prop] = styles[prop] } catch (e) {}` */
  method ApplyStyles(el: Element, styles: map<string, Value>, rejects: (string, Value) -> bool)
    modifies el`style
    ensures el.style == old(el.style) + Accepted(styles, rejects)
  {
    var pending := styles.Keys;
    while pending != {}
      invariant pending <= styles.Keys
      invariant el.style == old(el.style) + Accepted(styles - pending, rejects)
      decreases pending
    {
      var prop :| prop in pending;
      var _ := el.TrySetStyle(prop, styles[prop], rejects);
      pending := pending - {prop};
    }
    assert styles - {} == styles;
  }

  /** `for (attr in elAttrs) el[attr] = elAttrs[attr]` */
  method ApplyAttributes(el: Element, attrs: map<string, Value>)
    modifies el`props
    ensures el.props == old(el.props) + AttrSlots(attrs)
  {
    var pending := attrs.Keys;
    while pending != {}
      invariant pending <= attrs.Keys
      invariant el.props == old(el.props) + AttrSlots(attrs - pending)
      decreases pending
    {
      var attr :| attr in pending;
      el.SetProperty(attr, Attr(attrs[attr]));
      pending := pending - {attr};
    }
    assert attrs - {} == attrs;
  }

  /** `$g(desc, second, third)`. The host's refusal of style assignments is
      the oracle `rejects`. */
  method Gen(desc: DescArg, second: AttrsArg, third: Content, rejects: (string, Value) -> bool)
    returns (r: Result)
    requires desc.DescString? ==> Parse(desc.s).tag != ""
    modifies if second.Attrs? then {second.bag} else {}
    ensures desc.NotAString? ==> r == Err(InvalidDescriptor)
    ensures desc.NotAString? && second.Attrs? ==> second.bag.entries == old(second.bag.entries)
    ensures desc.DescString? ==> r.Ok? && fresh(r.el)
    ensures desc.DescString? && r.Ok? ==>
      Descriptor(r.el.tag, r.el.id, r.el.className) == Parse(desc.s)
    ensures r.Ok? && second.Attrs? ==>
      second.bag.entries == WithoutStyle(old(second.bag.entries))
    ensures r.Ok? ==>
      var entries := if second.Attrs? then old(second.bag.entries) else map[];
      && r.el.style == StylesApplied(entries, rejects)
      && r.el.props == ContentProps(AttrSlots(WithoutStyle(entries)), Routed(second, third))
      && r.el.children == ContentChildren(Routed(second, third))
  {
    if desc.NotAString? {
      return Err(InvalidDescriptor);
    }
    ghost var entries := if second.Attrs? then second.bag.entries else map[];
    var d := ParseDescriptor(desc.s);
    var el := new Element(d.tag, d.id, d.className);
    var content := third;
    if second.Attrs? {
      var bag := second.bag;
      if "style" in bag.entries && bag.entries["style"].Truthy() {
        var styles := bag.entries["style"];
        bag.Delete("style");
        ApplyStyles(el, styles.OwnProperties(), rejects);
        assert el.style == Accepted(styles.OwnProperties(), rejects);
      }
      assert el.style == StylesApplied(entries, rejects);
      assert bag.entries == WithoutStyle(entries);
      ApplyAttributes(el, bag.entries);
      assert el.props == AttrSlots(WithoutStyle(entries));
    } else {
      assert AttrSlots(WithoutStyle(entries)) == map[];
      if second.value.Truthy() {
        content := second.value;
      }
    }
    assert content == Routed(second, third);
    AppendContent(el, content);
    r := Ok(el);
  }

  /** A bag entry other than a truthy `style` ends up as an element property
      with the bag's value, unless an entry of the content binds its name. */
  lemma AttributeKept(entries: map<string, Value>, c: Content, k: string)
    requires k in entries && (k != "style" || StyleEntry(entries).None?)
    requires c.ArrayContent? ==> forall j | 0 <= j < |c.items| :: !Binds(c.items[j], k)
    ensures k in ContentProps(AttrSlots(WithoutStyle(entries)), c)
    ensures ContentProps(AttrSlots(WithoutStyle(entries)), c)[k] == Attr(entries[k])
  {
    var props := AttrSlots(WithoutStyle(entries));
    assert k in WithoutStyle(entries);
    if c.ArrayContent? {
      BindUntouched(props, c.items, k);
    }
  }
}
