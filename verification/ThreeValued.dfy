/** SQL's three-valued logic. A policy admits a row only when its expression is
    `True`; `Null` and `False` both hide it. */
module ThreeValued {
  import opened Wrappers

  datatype Truth = True | False | Null

  function Of(b: bool): Truth { if b then True else False }

  function Not(t: Truth): Truth {
    match t
    case True => False
    case False => True
    case Null => Null
  }

  function And(s: Truth, t: Truth): Truth {
    if s.False? || t.False? then False
    else if s.Null? || t.Null? then Null
    else True
  }

  function Or(s: Truth, t: Truth): Truth {
    Not(And(Not(s), Not(t)))
  }

  /** `s = t`, which is `NULL` as soon as one side is. */
  function Equal<T(==)>(s: Option<T>, t: Option<T>): Truth {
    if s.None? || t.None? then Null else Of(s.value == t.value)
  }
}
