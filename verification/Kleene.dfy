/** Strong Kleene truth values: the meaning of a Check branch that may fail.
    `Unknown` stands for every branch whose answer is not determined by the
    stored rows (a failing condition, a path beyond the depth limit). */
module Kleene {

  datatype Truth = True | False | Unknown

  function FromBool(b: bool): Truth {
    if b then True else False
  }

  /** The information order: `Unknown` is below everything. */
  predicate Refines(a: Truth, b: Truth) {
    a == Unknown || a == b
  }

  predicate RefinesAll(s: seq<Truth>, t: seq<Truth>) {
    |s| == |t| && forall i :: 0 <= i < |s| ==> Refines(s[i], t[i])
  }

  function Any(s: seq<Truth>): Truth {
    if True in s then True else if Unknown in s then Unknown else False
  }

  function All(s: seq<Truth>): Truth {
    if False in s then False else if Unknown in s then Unknown else True
  }

  function Minus(base: Truth, subtract: Truth): Truth {
    if base == False || subtract == True then False
    else if base == Unknown || subtract == Unknown then Unknown
    else True
  }

  /** Adding information to the operands never changes an answer already given. */
  lemma {:induction false} ConnectivesAreMonotone(s: seq<Truth>, t: seq<Truth>)
    requires RefinesAll(s, t)
    ensures Refines(Any(s), Any(t))
    ensures Refines(All(s), All(t))
    ensures |s| == 2 ==> Refines(Minus(s[0], s[1]), Minus(t[0], t[1]))
  {
  }

  function Or(a: Truth, b: Truth): Truth {
    if a == True || b == True then True else if a == Unknown || b == Unknown then Unknown else False
  }

  /** The n-ary disjunction is the iterated binary one. */
  lemma {:induction false} AnyAppend(s: seq<Truth>, t: seq<Truth>)
    ensures Any(s + t) == Or(Any(s), Any(t))
    ensures forall v :: Any([v]) == v
  {
    forall v ensures v in s + t <==> v in s || v in t {}
  }
}
