/** The small part of the host document that the builder uses: elements with a
    tag, an id, a class string, a property namespace, a style surface and an
    ordered child list; text nodes; and the caller's attribute bag. */
module Dom {

  datatype Option<T> = None | Some(value: T)

  /** A value found in an attribute bag. The builder copies primitives (strings,
      numbers, functions, null) without looking inside; it only asks whether they
      are truthy. A plain object it may iterate: `fields` are its own enumerable
      properties. */
  datatype Value =
    | Primitive(repr: string, truthy: bool)
    | Record(fields: map<string, Value>)
  {
    predicate Truthy() {
      Record? || truthy
    }

    /** What `for (p in v) if (v.hasOwnProperty(p))` visits. */
    function OwnProperties(): map<string, Value> {
      if Record? then fields else map[]
    }
  }

  /** A child of an element: a text node or an element. */
  datatype Node = Text(data: string) | Elem(el: Element)

  /** What an element property holds: a value copied from the attribute bag, or
      a reference to a child captured under that name. */
  datatype Slot = Attr(v: Value) | Capture(n: Node)

  class Element {
    const tag: string
    const id: string
    const className: string
    var props: map<string, Slot>
    var style: map<string, Value>
    var children: seq<Node>

    /** `document.createElement(tag)` followed by setting `className` and `id`;
        the host refuses an empty tag name. */
    constructor (tag: string, id: string, className: string)
      requires tag != ""
      ensures this.tag == tag && this.id == id && this.className == className
      ensures props == map[] && style == map[] && children == []
    {
      this.tag := tag;
      this.id := id;
      this.className := className;
      props := map[];
      style := map[];
      children := [];
    }

    /** `appendChild(n)`: the node becomes the last child. */
    method AppendChild(n: Node)
      modifies this`children
      ensures children == old(children) + [n]
    {
      children := children + [n];
    }

    /** `this[name] = slot`. */
    method SetProperty(name: string, slot: Slot)
      modifies this`props
      ensures props == old(props)[name := slot]
    {
      props := props[name := slot];
    }

    /** `try { this.style[prop] = v } catch (e) {}`: the host may refuse a style
        assignment (`rejects`), in which case nothing changes. */
    method TrySetStyle(prop: string, v: Value, rejects: (string, Value) -> bool) returns (applied: bool)
      modifies this`style
      ensures applied == !rejects(prop, v)
      ensures style == if applied then old(style)[prop := v] else old(style)
    {
      applied := !rejects(prop, v);
      if applied {
        style := style[prop := v];
      }
    }
  }

  /** The caller's attribute bag, a plain object the builder mutates. */
  class Bag {
    var entries: map<string, Value>

    constructor (entries: map<string, Value>)
      ensures this.entries == entries
    {
      this.entries := entries;
    }

    /** `delete bag[key]`. */
    method Delete(key: string)
      modifies this`entries
      ensures entries == old(entries) - {key}
    {
      entries := entries - {key};
    }
  }
}
