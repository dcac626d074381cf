/** The COLLADA document as the converter sees it: an already-parsed tree of
    elements whose tags carry an XML namespace ("{uri}name"), with attributes,
    optional text and children in document order; and the lookups the
    converter performs on it (`named`, `get`, `walk`, dae_parser.py:27-39). */
module XmlTree {
  import opened Common
  import opened Py

  /** One whitespace-separated token of an element's text, with the values
      Python's `float()` and `int()` give it when it is a valid literal. */
  datatype Atom = Atom(text: string, asFloat: Option<real>, asInt: Option<int>)

  /** An element; `text` is None when the element has no text at all. */
  datatype Element = Element(
    tag: string,
    attributes: map<string, string>,
    text: Option<seq<Atom>>,
    children: seq<Element>)

  /** The tag is `prefix + "}" + what` for a prefix without '}'. */
  predicate HasLocalName(tag: string, what: string)
  {
    exists k :: 0 <= k < |tag| && tag[k] == '}' && '}' !in tag[..k] && tag[k + 1..] == what
  }

  /** `named(i, what)`: compares the tag text after the first '}' with
      `what`; a tag without '}' makes `str.index` raise. */
  function Named(e: Element, what: string): (r: Result<bool>)
    ensures r.Ok? <==> '}' in e.tag
    ensures r == Ok(true) <==> HasLocalName(e.tag, what)
  {
    match IndexOf(e.tag, '}')
    case Ok(k) =>
      assert HasLocalName(e.tag, what) ==> e.tag[k + 1..] == what by {
        if HasLocalName(e.tag, what) {
          var j :| 0 <= j < |e.tag| && e.tag[j] == '}' && '}' !in e.tag[..j] && e.tag[j + 1..] == what;
          assert j == k;
        }
      }
      Ok(e.tag[k + 1..] == what)
    case Err(_) => Err(NoNamespace)
  }

  /** Position of the first child (from position i on) named `what`, None if
      there is none; fails at the first child without a namespace that comes
      before any match. */
  function FirstNamed(cs: seq<Element>, what: string, i: nat): (r: Result<Option<nat>>)
    requires i <= |cs|
    ensures r.Ok? && r.value.Some? ==>
      i <= r.value.value < |cs| && Named(cs[r.value.value], what) == Ok(true) &&
      forall j :: i <= j < r.value.value ==> Named(cs[j], what) == Ok(false)
    ensures r.Ok? && r.value.None? ==> forall j :: i <= j < |cs| ==> Named(cs[j], what) == Ok(false)
    ensures r.Err? ==> r.error == NoNamespace
    decreases |cs| - i
  {
    if i == |cs| then Ok(None)
    else match Named(cs[i], what)
      case Err(e) => Err(e)
      case Ok(true) => Ok(Some(i))
      case Ok(false) => FirstNamed(cs, what, i + 1)
  }

  /** `get(of, what)`: the first child named `what` in document order, or
      None when there is none (the diagnostic print is not modelled). */
  function Get(of: Element, what: string): (r: Result<Option<Element>>)
    ensures r.Ok? && r.value.Some? ==>
      exists k :: 0 <= k < |of.children| && of.children[k] == r.value.value &&
        Named(of.children[k], what) == Ok(true) &&
        forall j :: 0 <= j < k ==> Named(of.children[j], what) == Ok(false)
    ensures r.Ok? && r.value.None? ==>
      forall j :: 0 <= j < |of.children| ==> Named(of.children[j], what) == Ok(false)
    ensures r.Err? <==> FirstNamed(of.children, what, 0).Err?
  {
    var k :- FirstNamed(of.children, what, 0);
    match k
    case None => Ok(None)
    case Some(k) => Ok(Some(of.children[k]))
  }

  /** `get` applied to a value that may be None: iterating over None raises. */
  function GetIn(of: Option<Element>, what: string): (r: Result<Option<Element>>)
    ensures of.None? ==> r == Err(NoneValue)
    ensures of.Some? ==> r == Get(of.value, what)
  {
    match of
    case None => Err(NoneValue)
    case Some(e) => Get(e, what)
  }

  /** `walk(of, path)`: `get` along a path, starting from `of`. */
  function WalkFrom(of: Option<Element>, path: seq<string>): Result<Option<Element>>
    decreases |path|
  {
    if path == [] then Ok(of)
    else
      var next :- GetIn(of, path[0]);
      WalkFrom(next, path[1..])
  }

  function Walk(of: Element, path: seq<string>): Result<Option<Element>>
  {
    WalkFrom(Some(of), path)
  }

  /** Walking a path in two parts is walking the first part, then the second
      from where the first ended. */
  lemma {:induction false} WalkAppend(of: Option<Element>, p: seq<string>, q: seq<string>)
    ensures WalkFrom(of, p + q) ==
      match WalkFrom(of, p)
      case Err(e) => Err(e)
      case Ok(mid) => WalkFrom(mid, q)
    decreases |p|
  {
    if p == [] {
      assert p + q == q;
    } else {
      assert (p + q)[0] == p[0] && (p + q)[1..] == p[1..] + q;
      match GetIn(of, p[0])
      case Err(_) =>
      case Ok(next) => WalkAppend(next, p[1..], q);
    }
  }

  /** A one-step walk is a single `get`. */
  lemma WalkOne(of: Element, what: string)
    ensures Walk(of, [what]) == Get(of, what)
  {
    assert [what][0] == what && [what][1..] == [];
    match Get(of, what)
    case Err(_) =>
    case Ok(next) => assert WalkFrom(next, []) == Ok(next);
  }

  /** A walk that reaches a missing node before its last step fails, because
      the next `get` iterates over None. */
  lemma WalkThroughMissing(of: Element, what: string, rest: seq<string>)
    requires Get(of, what) == Ok(None) && rest != []
    ensures Walk(of, [what] + rest) == Err(NoneValue)
  {
    WalkAppend(Some(of), [what], rest);
    WalkOne(of, what);
  }

  /** `element.get(name)`: the attribute value, or None. */
  function Attribute(e: Element, name: string): (r: Option<string>)
    ensures r.Some? <==> name in e.attributes
    ensures r.Some? ==> r.value == e.attributes[name]
  {
    if name in e.attributes then Some(e.attributes[name]) else None
  }

  /** `e.text.split()` where e may be None and its text may be None. */
  function Tokens(e: Option<Element>): (r: Result<seq<Atom>>)
    ensures r.Ok? <==> e.Some? && e.value.text.Some?
  {
    match e
    case None => Err(NoneValue)
    case Some(el) =>
      match el.text
      case None => Err(NoneValue)
      case Some(atoms) => Ok(atoms)
  }

  /** `[float(i) for i in tokens]`. */
  function Floats(atoms: seq<Atom>): (r: Result<seq<real>>)
    ensures r.Ok? <==> forall i :: 0 <= i < |atoms| ==> atoms[i].asFloat.Some?
    ensures r.Ok? ==>
      |r.value| == |atoms| && forall i :: 0 <= i < |atoms| ==> r.value[i] == atoms[i].asFloat.value
    decreases |atoms|
  {
    if atoms == [] then Ok([])
    else
      var init :- Floats(atoms[..|atoms| - 1]);
      match atoms[|atoms| - 1].asFloat
      case None => Err(BadLiteral)
      case Some(f) => Ok(init + [f])
  }

  /** `[int(i) for i in tokens]`. */
  function Ints(atoms: seq<Atom>): (r: Result<seq<int>>)
    ensures r.Ok? <==> forall i :: 0 <= i < |atoms| ==> atoms[i].asInt.Some?
    ensures r.Ok? ==>
      |r.value| == |atoms| && forall i :: 0 <= i < |atoms| ==> r.value[i] == atoms[i].asInt.value
    decreases |atoms|
  {
    if atoms == [] then Ok([])
    else
      var init :- Ints(atoms[..|atoms| - 1]);
      match atoms[|atoms| - 1].asInt
      case None => Err(BadLiteral)
      case Some(n) => Ok(init + [n])
  }

  /** The token texts, as `text.split()` gives them. */
  function Words(atoms: seq<Atom>): (r: seq<string>)
    ensures |r| == |atoms| && forall i :: 0 <= i < |atoms| ==> r[i] == atoms[i].text
  {
    seq(|atoms|, i requires 0 <= i < |atoms| => atoms[i].text)
  }

  /** `[float(i) for i in get(e, child).text.split()]`. */
  function ChildFloats(e: Element, child: string): (r: Result<seq<real>>)
    ensures Get(e, child).Err? ==> r == Err(Get(e, child).error)
    ensures Get(e, child) == Ok(None) ==> r == Err(NoneValue)
    ensures Get(e, child).Ok? && Get(e, child).value.Some? ==> FloatsOf(Get(e, child).value.value, r)
  {
    var c :- Get(e, child);
    var atoms :- Tokens(c);
    Floats(atoms)
  }

  /** `[int(i) for i in get(e, child).text.split()]`, where e may be None. */
  function ChildInts(e: Option<Element>, child: string): (r: Result<seq<int>>)
    ensures e.None? ==> r == Err(NoneValue)
    ensures e.Some? && Get(e.value, child).Err? ==> r == Err(Get(e.value, child).error)
    ensures e.Some? && Get(e.value, child) == Ok(None) ==> r == Err(NoneValue)
    ensures e.Some? && Get(e.value, child).Ok? && Get(e.value, child).value.Some? ==>
      IntsOf(Get(e.value, child).value.value, r)
  {
    var c :- GetIn(e, child);
    var atoms :- Tokens(c);
    Ints(atoms)
  }

  /** r is what the float conversion of c's tokens gives: it succeeds
      exactly when c has text whose every token is a float literal, and
      then holds their values in order. */
  predicate FloatsOf(c: Element, r: Result<seq<real>>)
  {
    && (r.Ok? <==> c.text.Some? && forall i :: 0 <= i < |c.text.value| ==> c.text.value[i].asFloat.Some?)
    && (r.Ok? ==>
          && |r.value| == |c.text.value|
          && forall i :: 0 <= i < |r.value| ==> r.value[i] == c.text.value[i].asFloat.value)
  }

  /** r is what the int conversion of c's tokens gives. */
  predicate IntsOf(c: Element, r: Result<seq<int>>)
  {
    && (r.Ok? <==> c.text.Some? && forall i :: 0 <= i < |c.text.value| ==> c.text.value[i].asInt.Some?)
    && (r.Ok? ==>
          && |r.value| == |c.text.value|
          && forall i :: 0 <= i < |r.value| ==> r.value[i] == c.text.value[i].asInt.value)
  }
}
