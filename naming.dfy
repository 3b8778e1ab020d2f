/** How types become coupling targets, and how method signatures enter the response set. */
module Naming {
  import opened Bytecode

  /** The pseudo-class that every primitive and void type is coupled to. */
  const PRIMITIVE: string := "java.PRIMITIVE"

  /** The innermost element type of an array type; any other type itself. */
  function BaseType(t: Type): (b: Type)
    ensures !b.Array?
    ensures !t.Array? ==> b == t
  {
    if t.Array? then BaseType(t.element) else t
  }

  /** The class name a type couples to: the sentinel for primitives and void, the element's
      name for an array (at any depth), and the class name otherwise. */
  function GetClassName(t: Type): (name: string)
    ensures BaseType(t).Reference? ==> name == BaseType(t).className
    ensures !BaseType(t).Reference? ==> name == PRIMITIVE
  {
    if Tag(t) <= T_VOID then PRIMITIVE
    else if t.Array? then GetClassName(t.element)
    else TypeString(t)
  }

  /** The argument part of a signature: the list's rendering "[a, b]" without its brackets. */
  function ArgumentList(ts: seq<Type>): (r: string)
    ensures |ts| == 0 ==> r == ""
    ensures |ts| == 1 ==> r == TypeString(ts[0])
    decreases |ts|
  {
    if |ts| == 0 then ""
    else if |ts| == 1 then TypeString(ts[0])
    else TypeString(ts[0]) + ", " + ArgumentList(ts[1..])
  }

  /** The response-set entry of a method: "owner.name(a, b)". */
  function Signature(owner: string, methodName: string, args: seq<Type>): (sig: string)
    ensures |sig| == |owner| + |methodName| + |ArgumentList(args)| + 3
    ensures sig[..|owner|] == owner && sig[|owner|] == '.'
    ensures sig[|sig| - 1] == ')'
    ensures |args| == 0 ==> sig == owner + "." + methodName + "()"
  {
    owner + "." + methodName + "(" + ArgumentList(args) + ")"
  }

  /** A name that renders without a comma and is not empty. */
  predicate PlainName(s: string) {
    |s| > 0 && forall k :: 0 <= k < |s| ==> s[k] != ','
  }

  /** A type whose class names are plain, as every Java class name is. */
  predicate WellFormedType(t: Type) {
    match t
    case Reference(n) => PlainName(n)
    case Array(e) => WellFormedType(e)
    case _ => true
  }

  /** The rendered argument types. */
  function Rendered(ts: seq<Type>): (r: seq<string>)
    ensures |r| == |ts|
    ensures forall k :: 0 <= k < |ts| ==> r[k] == TypeString(ts[k])
  {
    seq(|ts|, k requires 0 <= k < |ts| => TypeString(ts[k]))
  }

  /** Strings joined with ", ", the separator placed before each string after the first,
      as a list's rendering places it. */
  function Joined(xs: seq<string>): string
    decreases |xs|
  {
    if |xs| == 0 then ""
    else if |xs| == 1 then xs[0]
    else Joined(xs[..|xs| - 1]) + ", " + xs[|xs| - 1]
  }

  lemma {:induction false} JoinedFront(xs: seq<string>)
    requires |xs| >= 2
    ensures Joined(xs) == xs[0] + ", " + Joined(xs[1..])
    decreases |xs|
  {
    var p, x := xs[..|xs| - 1], xs[|xs| - 1];
    var q := xs[1..];
    assert q[..|q| - 1] == p[1..];
    if |xs| == 2 {
      assert Joined(p) == xs[0];
      assert Joined(q) == x;
    } else {
      JoinedFront(p);
      assert Joined(xs) == xs[0] + ", " + Joined(p[1..]) + ", " + x;
    }
  }

  /** The argument list is the rendered argument types joined with ", ": the text between
      the brackets of the list's rendering. */
  lemma {:induction false} ArgumentListJoins(ts: seq<Type>)
    ensures ArgumentList(ts) == Joined(Rendered(ts))
    decreases |ts|
  {
    if |ts| >= 2 {
      ArgumentListJoins(ts[1..]);
      JoinedFront(Rendered(ts));
      assert Rendered(ts)[1..] == Rendered(ts[1..]);
    }
  }

  lemma {:induction false} TypeStringPlain(t: Type)
    requires WellFormedType(t)
    ensures PlainName(TypeString(t))
  {
    match t
    case Primitive(k) =>
      assert TypeString(t) == KindName(k);
    case Void =>
    case Array(e) =>
      TypeStringPlain(e);
      var s := TypeString(e);
      assert TypeString(t) == s + "[]";
      forall k | 0 <= k < |s + "[]"|
        ensures (s + "[]")[k] != ','
      {
        if k < |s| { assert (s + "[]")[k] == s[k]; }
      }
    case Reference(n) =>
  }

  /** The index of the first comma of a string, or its length when it has none. */
  function FirstComma(w: string): (k: nat)
    ensures k <= |w|
  {
    if |w| == 0 || w[0] == ',' then 0 else 1 + FirstComma(w[1..])
  }

  /** Splitting "x" followed by ", rest" (or by nothing) at the first comma recovers x. */
  lemma {:induction false} FirstCommaAfter(x: string, xs: string)
    requires forall k :: 0 <= k < |x| ==> x[k] != ','
    requires xs == [] || xs[0] == ','
    ensures FirstComma(x + xs) == |x|
    decreases |x|
  {
    if |x| > 0 {
      assert (x + xs)[0] == x[0];
      assert (x + xs)[1..] == x[1..] + xs;
      FirstCommaAfter(x[1..], xs);
    } else {
      assert x + xs == xs;
    }
  }

  /** The argument list is empty exactly when there are no arguments. */
  lemma ArgumentListEmpty(ts: seq<Type>)
    requires forall t :: t in ts ==> WellFormedType(t)
    ensures ArgumentList(ts) == "" <==> |ts| == 0
  {
    if |ts| > 0 {
      TypeStringPlain(ts[0]);
    }
  }

  lemma {:induction false} ArgumentListInjective(a: seq<Type>, b: seq<Type>)
    requires forall t :: t in a ==> WellFormedType(t)
    requires forall t :: t in b ==> WellFormedType(t)
    requires ArgumentList(a) == ArgumentList(b)
    ensures Rendered(a) == Rendered(b)
    decreases |a|
  {
    ArgumentListEmpty(a);
    ArgumentListEmpty(b);
    if |a| != 0 {
      assert |b| != 0;
      var x, y := TypeString(a[0]), TypeString(b[0]);
      TypeStringPlain(a[0]);
      TypeStringPlain(b[0]);
      var xs := if |a| == 1 then "" else ", " + ArgumentList(a[1..]);
      var ys := if |b| == 1 then "" else ", " + ArgumentList(b[1..]);
      var w := ArgumentList(a);
      assert w == x + xs;
      assert w == y + ys;
      FirstCommaAfter(x, xs);
      FirstCommaAfter(y, ys);
      assert x == w[..|x|] && y == w[..|y|];
      assert xs == w[|x|..] && ys == w[|y|..];
      if |a| == 1 {
        assert |b| == 1;
        assert Rendered(a) == [x] && Rendered(b) == [y];
      } else {
        assert |b| != 1;
        assert ArgumentList(a[1..]) == xs[2..] && ArgumentList(b[1..]) == ys[2..];
        assert forall t :: t in a[1..] ==> t in a;
        assert forall t :: t in b[1..] ==> t in b;
        ArgumentListInjective(a[1..], b[1..]);
        assert Rendered(a) == [x] + Rendered(a[1..]);
        assert Rendered(b) == [y] + Rendered(b[1..]);
      }
    }
  }

  /** Overloads are measured separately: two methods of one owner with the same name but
      differently rendered argument types give different response-set entries. */
  lemma OverloadsDistinct(owner: string, methodName: string, a: seq<Type>, b: seq<Type>)
    requires forall t :: t in a ==> WellFormedType(t)
    requires forall t :: t in b ==> WellFormedType(t)
    requires Rendered(a) != Rendered(b)
    ensures Signature(owner, methodName, a) != Signature(owner, methodName, b)
  {
    var p := owner + "." + methodName + "(";
    if Signature(owner, methodName, a) == Signature(owner, methodName, b) {
      var sa, sb := Signature(owner, methodName, a), Signature(owner, methodName, b);
      assert sa == p + ArgumentList(a) + ")";
      assert sb == p + ArgumentList(b) + ")";
      assert ArgumentList(a) == sa[|p|..|sa| - 1];
      assert ArgumentList(b) == sb[|p|..|sb| - 1];
      ArgumentListInjective(a, b);
    }
  }
}
