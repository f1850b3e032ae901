# dollar-gee in Dafny

A model of `$g(elDesc, elAttrs, elContent)`, the element builder of
dollar-gee. The builder does three things:

- It parses a descriptor such as `".a #id class1 class2"` into a tag, an id
  and a class name.
- It creates the element. It then either applies an attribute bag (with its
  special `style` entry) or takes the second argument as the content.
- It attaches the content: a string, a single node, or an array of nodes,
  strings, `[name, node]` pairs and `[node]` singletons. The pairs and
  singletons also bind named fields on the new element.

The project has six modules:

- `Tokens` (`tokens.dfy`): JavaScript's `split(" ")` and `split(' ', 1)[0]`,
  with the split/join round trip in both directions.
- `Dom` (`dom.dfy`): the host substrate the builder uses. `Element` is a class
  with a tag, an id, a class name, a property map, a style map and an ordered
  child list. `Bag` is the caller's attribute object, which the builder
  mutates. `Value` is a bag value, and `Node` is a text node or an element.
- `Descriptors` (`descriptors.dfy`): the descriptor loop as a method. The
  left-to-right fold `ScanTokens` is its specification, and lemmas say what
  the fold computes.
- `Contents` (`contents.dfy`): the content shapes and the content loop as a
  method. The folds `ChildrenOf` and `Bind` are its specification, with lemmas
  on child order, child count and "the last binding wins".
- `Builder` (`builder.dfy`): `Gen` itself. This covers the routing of the
  second argument, the style and attribute loops, and the error for a
  non-string descriptor.
- `Examples` (`examples.dfy`): the usage examples from the builder's
  documentation comment, stated on the model.

Host behaviour that is not deterministic from the builder's point of view
becomes a parameter. The host's refusal of a style assignment (the
`try { el.style[prop] = … } catch (e) {}` at lines 128-130) is the oracle
`rejects: (string, Value) -> bool`.

The documentation comment (dollar-gee.js:49-52 and 189-191) says a `[node]`
entry is named by its first class, with the id as the fallback. The code
(dollar-gee.js:194-199) tries the id first. The model follows the code. The
comment's own example at lines 55-66 (`[$g('#q z', …)]` gives `el.q`) agrees
with the code; see `Examples.WrappedNodes`.

Two more places where the documentation comment and the code differ:

- dollar-gee.js:78-79 says `$g('', 'xxx')` returns "a TEXT element". The code
  (dollar-gee.js:94-212) always returns the element it created, here a `div`
  whose only child is the text node `xxx`. The model follows the code; see
  `Examples.TextOnly`.
- The array at dollar-gee.js:58-60 lacks a comma after its second entry. As
  written, `[…][$g('#q z', …)]` indexes the second singleton and yields
  `undefined`, so the array is `[[y], undefined]` and the builder would throw
  at line 167 on `undefined.nodeType`. `Examples.WrappedNodes` states the
  evident three-entry intent.

## Model

| member | source | states |
|---|---|---|
| `Tokens.Split` | dollar-gee.js:96 | `desc.split(" ")` yields at least one token, and no token contains a space |
| `Tokens.FirstSpace` | dollar-gee.js:96 | the separator found is a space, and no space comes before it |
| `Tokens.JoinSplit` | dollar-gee.js:96 | joining the tokens of a split with single spaces gives back the original string, empty tokens included |
| `Tokens.SplitJoin` | dollar-gee.js:96 | splitting a join of space-free tokens gives back exactly those tokens |
| `Tokens.FirstToken` | dollar-gee.js:198 | `className.split(' ', 1)[0]` is the first token of the full split: the space-free prefix that runs up to the first space or to the end |
| `Descriptors.ParseDescriptor` | dollar-gee.js:95-112 | the descriptor loop over the split tokens, followed by dropping the leading separator, computes exactly the left-to-right fold `Parse` |
| `Descriptors.LastMarkWins` | dollar-gee.js:100-106 | the tag is the rest of the last token that starts with `.`; the id is the rest of the last token that starts with `#` |
| `Descriptors.UnmarkedDefault` | dollar-gee.js:97-98 | with no `.` token the tag is `div`; with no `#` token the id is empty |
| `Descriptors.ParseTagLast` | dollar-gee.js:100-103 | the tag of a parsed descriptor is the rest of its last token that starts with `.` |
| `Descriptors.ParseTagDefault` | dollar-gee.js:97-103 | a descriptor with no token starting with `.` gives the tag `div` |
| `Descriptors.ParseIdLast` | dollar-gee.js:100-106 | the id of a parsed descriptor is the rest of its last token that starts with `#` |
| `Descriptors.ParseIdDefault` | dollar-gee.js:98-106 | a descriptor with no token starting with `#` gives the empty id |
| `Descriptors.ScanClasses` | dollar-gee.js:99-110 | the loop's class string is every class token, in order, each preceded by one space |
| `Descriptors.ParseClassName` | dollar-gee.js:96-112 | the class name is the tokens that start with neither `.` nor `#` (empty tokens included) joined by single spaces, or empty when there are none |
| `Descriptors.PlainDescriptor` | dollar-gee.js:96-112 | a descriptor with no `.` or `#` token gives a `div` with an empty id whose class name is the descriptor itself |
| `Dom.Element.constructor` | dollar-gee.js:115-117 | `createElement` with a non-empty tag, then `className` and `id` are set; there are no properties, styles or children yet |
| `Dom.Element.AppendChild` | dollar-gee.js:154 | `appendChild` makes the node the last child and keeps the earlier children |
| `Dom.Element.SetProperty` | dollar-gee.js:137 | `el[name] = v` overwrites that one property and leaves the others |
| `Dom.Element.TrySetStyle` | dollar-gee.js:128-130 | a style assignment the host accepts sets that one style property; one it refuses leaves the style unchanged and is swallowed |
| `Dom.Bag.Delete` | dollar-gee.js:125 | `delete elAttrs.style` removes exactly that key from the caller's bag |
| `Contents.CaptureName` | dollar-gee.js:194-200 | a `[node]` entry is named by the node's id when it is non-empty, otherwise by the first space-separated token of its class name when that is non-empty, otherwise not at all; a text node is never named |
| `Contents.ChildrenConcat` | dollar-gee.js:165-207 | children are appended in input order: the children of a concatenation of entries are those of the first part followed by those of the second |
| `Contents.ChildrenCount` | dollar-gee.js:165-207 | each node, pair, singleton or string entry (the empty string included) adds exactly one child; other entries add none |
| `Contents.ChildPosition` | dollar-gee.js:165-207 | the child of entry `i` sits right after the children of the entries before it |
| `Contents.BindLastWins` | dollar-gee.js:173-200 | a field holds the node of the last entry that binds its name; a later binding overwrites an earlier one |
| `Contents.BindUntouched` | dollar-gee.js:173-200 | a name that no entry binds keeps whatever the element had under it (an attribute from the bag, or nothing) |
| `Contents.ContentChildren` | dollar-gee.js:149-210 | falsy content (`''` included) adds no child; a non-empty string adds one text node; a single node becomes the only new child; an array adds one child per recognised entry; any other value adds nothing |
| `Contents.AppendItems` | dollar-gee.js:165-207 | the loop over array content appends exactly `ChildrenOf(items)` after the existing children and leaves the properties equal to `Bind(old properties, items)` |
| `Contents.AppendContent` | dollar-gee.js:149-210 | attaching content appends exactly `ContentChildren(c)` and binds fields only for array content |
| `Builder.WithoutStyle` | dollar-gee.js:123-125 | a truthy `style` entry is removed from the bag and every other entry stays unchanged; a falsy `style` entry is kept |
| `Builder.StylesApplied` | dollar-gee.js:123-133 | the element's style holds exactly those own properties of a truthy `style` entry that the host accepts, each with the bag's value; without such an entry the style is empty |
| `Builder.Routed` | dollar-gee.js:121-146 | with an attribute bag the third argument is the content; a truthy non-bag second argument replaces the third; a falsy one keeps the third |
| `Builder.ApplyStyles` | dollar-gee.js:126-132 | the style loop adds exactly the accepted properties, and a refused property does not stop the others |
| `Builder.ApplyAttributes` | dollar-gee.js:135-139 | the attribute loop copies every remaining bag entry onto the element as a property with the bag's value |
| `Builder.Gen` | dollar-gee.js:94-218 | a non-string descriptor gives `InvalidDescriptor` and leaves the bag untouched; otherwise a fresh element whose tag, id and class name are `Parse(desc)`, whose style and properties come from the bag and the content's captures, whose children are the routed content's, and whose bag has lost a truthy `style` |
| `Builder.AttributeKept` | dollar-gee.js:135-139 | every bag entry other than a truthy `style` ends up as an element property with the bag's value, unless a content entry binds the same name |
| `Examples.ClassOnly` | dollar-gee.js:75-76 | `$g('xxx')` is a `div` with class `xxx` |
| `Examples.EmptyDescriptor` | dollar-gee.js:78-79 | `$g('', …)` is a `div` with empty id and class; the empty descriptor is one empty class token |
| `Examples.Anchor` | dollar-gee.js:81-82 | calling `Gen` with descriptor `.a`, the bag `{ href: link }` and the content `'the link'` gives an `a` element with empty id and class, exactly the property `href` set to the link, no style, and the one text child `the link` |
| `Examples.TextOnly` | dollar-gee.js:78-79 | calling `Gen` with descriptor `''` and the string `'xxx'` as second argument gives a `div` with empty id and class, no properties, no style and the one text child `xxx` |
| `Examples.IdAndClass` | dollar-gee.js:84-86 | a descriptor of one `#` token and one class token, such as `'#div2 xxx'`, gives a `div` with that id and that class |
| `Examples.StyleFailureSkipped` | dollar-gee.js:122-133 | a `style` entry holding `color` and a property the host refuses still applies `color`, and the bag loses `style` |
| `Examples.NamedPairs` | dollar-gee.js:27-36 | two `[name, node]` entries append both nodes in order and bind `child1` and `child2` to them |
| `Examples.WrappedNodes` | dollar-gee.js:55-66 | singletons built from `'y'`, `'z w'` and `'#q z'` bind `y`, `z` and `q`; the id wins over the class |
| `Examples.LeadingSpaceBindsEmptyName` | dollar-gee.js:196-199 | a class name with a leading space, such as one produced by `'.b  x'`, has an empty first token, so `[node]` binds the field `''` |

## Left out

- The module wrapper, the capture of `document` and the global `window.$g` registration (dollar-gee.js:1-3, 94, 246) are packaging. So is the commented-out example (dollar-gee.js:220-244).
- The host's property semantics are not modelled. Property values are opaque `Value`s in a map. There is no reflection of `href`, no event handlers, and no effect of a bag entry or capture named `id`, `className` or `style` on the element's own id, class or style. An element's id and class name are fixed when it is created.
- Bag attributes and named captures share one property map, as they share the element's property namespace in the source. Captures are written after attributes, so a capture overwrites an attribute of the same name.
- `appendChild` moving a node that is already in a tree is not modelled. In the host, the node is detached from its old parent, and a node appended twice appears once. The model records every append.
- Which style properties or values the host refuses is host-specific (the IE 6 workaround). It is the `rejects` oracle. A style value the host ignores without throwing is recorded as set.
- StylesApplied: a truthy primitive `style` entry has no own properties in the model. In the source, a non-empty string would spread its characters under index names.
- The enumeration order of `for … in` is not modelled. The bag and the style object are maps, so the order cannot change the result. Only own properties are modelled, which matches the `hasOwnProperty` guards.
- `Object.prototype.toString` type sniffing and truthiness are replaced by datatypes: `AttrsArg`, `Content`, `Item` and `Value.Truthy`. An array-like content value with a `length` (a `NodeList`, `arguments`) is not modelled; it falls under `OtherContent`. The key of a `[name, node]` pair is taken to be a string already.
- Host exceptions are not modelled as behaviour. An empty tag name (a lone `.` token) is excluded by `Gen`'s precondition. These inputs have no constructor in `Item`: a `null` or `undefined` array entry, a zero-length inner array, and an inner array whose node position holds something other than a node.
- Gen: its precondition asks only for a non-empty tag. A tag the host refuses for its characters (for example `.1`) is not modelled.
