/** The few pieces of Ruby semantics the controller relies on: `nil`,
    truthiness (only `nil` and `false` are falsy), `to_s`, and the
    `x ||= y` assignment. */
module RubyValues {

  datatype Option<+T> = None | Some(value: T)

  /** A Ruby value as far as the controller looks at it: `nil`, `false`, or
      some other (truthy) object, represented by what its `to_s` returns. */
  datatype RubyValue = Nil | False | Obj(text: string)

  /** The result of `x.foo if x.respond_to?(:foo)`: either the receiver does
      not respond to the message, or it does and returns a value. */
  datatype Probe = Absent | Responds(value: RubyValue)

  predicate Truthy(v: RubyValue) {
    v.Obj?
  }

  /** `v.to_s`: `nil.to_s == ""`, `false.to_s == "false"`. */
  function ToS(v: RubyValue): (s: string)
    ensures v.Obj? ==> s == v.text
    ensures v.Nil? ==> s == ""
  {
    match v
    case Nil => ""
    case False => "false"
    case Obj(text) => text
  }

  /** `x ||= (probe) if responds`: the assignment happens only when the
      receiver responds, and `||=` only overwrites a falsy `x`. */
  function OrAssignIf(x: RubyValue, p: Probe): (r: RubyValue)
    ensures Truthy(x) ==> r == x
    ensures p.Absent? ==> r == x
    ensures p.Responds? && !Truthy(x) ==> r == p.value
  {
    if p.Responds? && !Truthy(x) then p.value else x
  }

  /** The first truthy value of a list, `nil` when there is none: the
      reference reading of a chain of `||=`. */
  function FirstTruthy(vs: seq<RubyValue>): (r: RubyValue)
    ensures r.Nil? || Truthy(r)
    ensures Truthy(r) ==> r in vs
    ensures (exists i :: 0 <= i < |vs| && Truthy(vs[i])) ==> Truthy(r)
    ensures Truthy(r) ==> exists k :: 0 <= k < |vs| && vs[k] == r && forall j :: 0 <= j < k ==> !Truthy(vs[j])
  {
    if |vs| == 0 then Nil
    else if Truthy(vs[0]) then vs[0]
    else FirstTruthy(vs[1..])
  }
}
