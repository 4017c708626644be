/** The naming rules and per-method decisions of `BeanTypeAdapter`. The
    loops that use them are in the `Encoding` spec functions and the context
    methods. */
module BeanTypeAdapter {
  import opened Wrappers
  import opened Types
  import opened Tokens
  import opened Values
  import opened Reflection
  import opened Text

  predicate StartsWith(s: string, prefix: string) {
    |prefix| <= |s| && s[..|prefix|] == prefix
  }

  /** `getItemName`: strip an "is" prefix (tested first) or a "get" prefix,
      and lower-case the first remaining character. No prefix, or nothing
      after it, gives `null`. */
  function ItemName(getter: string): (r: Option<string>)
    ensures r.Some? ==> |r.value| > 0
    ensures StartsWith(getter, "is") ==>
      r == (if |getter| == 2 then None else Some([ToLowerAscii(getter[2])] + getter[3..]))
    ensures !StartsWith(getter, "is") && StartsWith(getter, "get") ==>
      r == (if |getter| == 3 then None else Some([ToLowerAscii(getter[3])] + getter[4..]))
    ensures !StartsWith(getter, "is") && !StartsWith(getter, "get") ==> r.None?
  {
    var n := if StartsWith(getter, "is") then 2 else if StartsWith(getter, "get") then 3 else 0;
    if n == 0 || n == |getter| then None
    else Some([ToLowerAscii(getter[n])] + getter[n + 1..])
  }

  /** `getSetterName`: "set", the first character upper-cased, then the
      rest. An empty key has no first character (`charAt(0)` throws). */
  function SetterName(item: string): (r: Option<string>)
    ensures r.Some? <==> |item| > 0
    ensures r.Some? ==> |r.value| == |item| + 3 && r.value[..3] == "set" && r.value[4..] == item[1..]
    ensures r.Some? ==> r.value[3] == ToUpperAscii(item[0])
  {
    if |item| == 0 then None else Some("set" + [ToUpperAscii(item[0])] + item[1..])
  }

  /** `getItemName` undoes the getter naming convention: for a property
      name starting with an ASCII lower-case letter, "get" or "is" followed
      by that name with its first letter upper-cased gives the name back. */
  lemma ItemNameInvertsPrefix(prefix: string, p: string)
    requires prefix == "get" || prefix == "is"
    requires |p| > 0 && 'a' <= p[0] <= 'z'
    ensures ItemName(prefix + [ToUpperAscii(p[0])] + p[1..]) == Some(p)
  {
    var g := prefix + [ToUpperAscii(p[0])] + p[1..];
    assert g[..|prefix|] == prefix;
    if prefix == "get" {
      assert g[..2][1] == 'e';
      assert g[3] == ToUpperAscii(p[0]) && g[4..] == p[1..];
    } else {
      assert g[2] == ToUpperAscii(p[0]) && g[3..] == p[1..];
    }
    assert [p[0]] + p[1..] == p;
  }

  /** A getter "getX…" or "isX…" with an ASCII upper-case X names the
      property whose setter is "setX…", with the same suffix. */
  lemma SetterMatchesGetter(prefix: string, x: char, suffix: string)
    requires prefix == "get" || prefix == "is"
    requires 'A' <= x <= 'Z'
    ensures ItemName(prefix + [x] + suffix).Some?
    ensures SetterName(ItemName(prefix + [x] + suffix).value) == Some("set" + [x] + suffix)
  {
    var g := prefix + [x] + suffix;
    assert g[..|prefix|] == prefix;
    if prefix == "get" {
      assert g[..2][1] == 'e';
      assert g[3] == x && g[4..] == suffix;
    } else {
      assert g[2] == x && g[3..] == suffix;
    }
  }

  /** The filter of `write`: zero parameters, not static, not `getClass`,
      and a getter-shaped name. */
  predicate IsProperty(m: Method) {
    |m.params| == 0 && !m.isStatic && m.name != "getClass" && ItemName(m.name).Some?
  }

  /** Whether a property is written: the method's own `@Serialize` flag,
      else the class's, else true. */
  function Serialized(classFlag: Option<bool>, m: Method): (b: bool)
    ensures m.serialize.Some? ==> b == m.serialize.value
    ensures m.serialize.None? && classFlag.Some? ==> b == classFlag.value
    ensures m.serialize.None? && classFlag.None? ==> b
  {
    m.serialize.GetOr(classFlag.GetOr(true))
  }

  /** A getter's `@DescribedAs` text becomes one comment before its key. */
  function CommentTokens(m: Method): (ts: seq<Token>)
    ensures |ts| <= 1 && (ts == [] <==> m.description.None?)
  {
    if m.description.Some? then [Comment(m.description.value)] else []
  }

  /** A non-static method without parameters named `name`. */
  predicate IsGetterOf(m: Method, name: string) {
    m.name == name && |m.params| == 0 && !m.isStatic
  }

  /** The override search of `method.invoke(obj)`: the first method in the
      receiver's table with the getter's name, no parameters and not
      static. */
  function FindGetter(methods: seq<Method>, name: string): (r: Option<nat>)
    ensures r.Some? ==> r.value < |methods| && IsGetterOf(methods[r.value], name)
    ensures r.Some? ==> forall j :: 0 <= j < r.value ==> !IsGetterOf(methods[j], name)
    ensures r.None? ==> forall j :: 0 <= j < |methods| ==> !IsGetterOf(methods[j], name)
  {
    if methods == [] then None
    else if IsGetterOf(methods[0], name) then Some(0)
    else match FindGetter(methods[1..], name)
         case None => None
         case Some(i) => Some(i + 1)
  }

  /** The body `method.invoke(obj)` runs for a getter `m` of the declared
      class `c` on a receiver of class `receiver` with the method table
      `receiverMethods`: virtual dispatch runs the receiver's override, and
      `m`'s own body when the receiver is of class `c` or does not override
      it. */
  function InvokedBody(c: ClassName, receiver: ClassName, receiverMethods: seq<Method>, m: Method): (b: MethodBody)
    ensures receiver == c ==> b == m.body
    ensures receiver != c && FindGetter(receiverMethods, m.name).None? ==> b == m.body
    ensures receiver != c && FindGetter(receiverMethods, m.name).Some? ==>
      b == receiverMethods[FindGetter(receiverMethods, m.name).value].body
    ensures b == m.body
      || exists i :: 0 <= i < |receiverMethods| && IsGetterOf(receiverMethods[i], m.name) && b == receiverMethods[i].body
  {
    if receiver == c then m.body
    else match FindGetter(receiverMethods, m.name)
      case Some(i) => receiverMethods[i].body
      case None => m.body
  }

  /** The setter search of `read`: the first method in table order with the
      setter's name and exactly one parameter. */
  function FindSetter(methods: seq<Method>, name: string): (r: Option<nat>)
    ensures r.Some? ==> r.value < |methods| && methods[r.value].name == name && |methods[r.value].params| == 1
    ensures r.Some? ==> forall j :: 0 <= j < r.value ==> !(methods[j].name == name && |methods[j].params| == 1)
    ensures r.None? ==> forall j :: 0 <= j < |methods| ==> !(methods[j].name == name && |methods[j].params| == 1)
  {
    if methods == [] then None
    else if methods[0].name == name && |methods[0].params| == 1 then Some(0)
    else match FindSetter(methods[1..], name)
         case None => None
         case Some(i) => Some(i + 1)
  }

  /** The setter search loop of `read`, over `getMethods()` in order. */
  method LocateSetter(methods: seq<Method>, name: string) returns (r: Option<nat>)
    ensures r == FindSetter(methods, name)
  {
    var i := 0;
    while i < |methods|
      invariant 0 <= i <= |methods|
      invariant forall j :: 0 <= j < i ==> !(methods[j].name == name && |methods[j].params| == 1)
    {
      if methods[i].name == name && |methods[i].params| == 1 {
        return Some(i);
      }
      i := i + 1;
    }
    r := None;
  }

  /** `target.invoke(instance, x)`: a setter that stores records `x` in its
      slot; a static method does not touch the instance; a method that
      throws is logged and the property is lost. */
  function Invoke(m: Method, state: seq<(string, Value)>, x: Value): (r: seq<(string, Value)>)
    ensures !m.isStatic && m.body.Stores? ==> Lookup(r, m.body.slot) == Some(x)
    ensures !(!m.isStatic && m.body.Stores?) ==> r == state
  {
    if !m.isStatic && m.body.Stores? then
      LookupPut(state, m.body.slot, x, m.body.slot);
      Put(state, m.body.slot, x)
    else state
  }

  /** Storing through a setter leaves every other slot as it was. */
  lemma InvokeKeepsOtherSlots(m: Method, state: seq<(string, Value)>, x: Value, slot: string)
    requires !(m.body.Stores? && m.body.slot == slot)
    ensures Lookup(Invoke(m, state, x), slot) == Lookup(state, slot)
  {
    if !m.isStatic && m.body.Stores? {
      LookupPut(state, m.body.slot, x, slot);
    }
  }
}
