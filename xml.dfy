/** The XML document an NFO file holds, as element records rather than text: the
    builder's calls fix which elements exist, their order, attributes and values;
    escaping and pretty-printing belong to the serializer. */
module Xml {
  import opened Wrappers

  /** A text value or attribute value before serialization: the builder receives
      strings, numbers and booleans and renders each as text. */
  datatype Value = StrValue(s: string) | IntValue(i: int) | RealValue(r: real) | BoolValue(b: bool)

  /** One element: its tag, its attributes in insertion order, its text (absent when the
      builder was handed `undefined`) and its child elements. */
  datatype Node = Element(tag: string, attributes: seq<(string, Value)>, value: Option<Value>, children: seq<Node>)

  /** An element with text and no attributes or children, as `parent.ele(tag, text)` adds. */
  function Leaf(tag: string, value: Option<Value>): Node {
    Element(tag, [], value, [])
  }

  /** The tags of a sequence of elements, in order. */
  function Tags(ns: seq<Node>): (r: seq<string>)
    ensures |r| == |ns|
    ensures forall i :: 0 <= i < |ns| ==> r[i] == ns[i].tag
  {
    seq(|ns|, i requires 0 <= i < |ns| => ns[i].tag)
  }

  /** `n` copies of `tag`. */
  function Repeat(tag: string, n: nat): (r: seq<string>)
    ensures |r| == n
    ensures forall i :: 0 <= i < n ==> r[i] == tag
  {
    seq(n, _ => tag)
  }

  /** The elements of `ns` whose tag is `tag`, in document order. */
  function Tagged(ns: seq<Node>, tag: string): (r: seq<Node>)
    ensures |r| <= |ns|
  {
    if ns == [] then [] else (if ns[0].tag == tag then [ns[0]] else []) + Tagged(ns[1..], tag)
  }

  /** Selecting by tag distributes over concatenation. */
  lemma {:induction false} TaggedAppend(a: seq<Node>, b: seq<Node>, tag: string)
    ensures Tagged(a + b, tag) == Tagged(a, tag) + Tagged(b, tag)
  {
    if a == [] {
      assert a + b == b;
    } else {
      var head := if a[0].tag == tag then [a[0]] else [];
      assert (a + b)[0] == a[0] && (a + b)[1..] == a[1..] + b;
      assert Tagged(a + b, tag) == head + Tagged(a[1..] + b, tag);
      TaggedAppend(a[1..], b, tag);
      assert Tagged(a, tag) == head + Tagged(a[1..], tag);
    }
  }

  /** A sequence whose elements all carry `tag` is its own selection. */
  lemma {:induction false} TaggedAll(ns: seq<Node>, tag: string)
    requires forall i :: 0 <= i < |ns| ==> ns[i].tag == tag
    ensures Tagged(ns, tag) == ns
  {
    if ns != [] {
      TaggedAll(ns[1..], tag);
    }
  }

  /** A sequence without any `tag` element selects nothing. */
  lemma {:induction false} TaggedNone(ns: seq<Node>, tag: string)
    requires forall i :: 0 <= i < |ns| ==> ns[i].tag != tag
    ensures Tagged(ns, tag) == []
  {
    if ns != [] {
      TaggedNone(ns[1..], tag);
    }
  }
}
