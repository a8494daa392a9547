/** The operator set a state type must provide to be integrated (the
    generic constraint `T : IComputable<T>`), passed as a record of
    functions: `+`, `-`, `* scalar` from either side, `==`, `!=`, the two
    bound comparisons `<` and `>`, and the type's default value. */
module Computable {

  datatype Ops<!T> = Ops(
    add: (T, T) -> T,
    sub: (T, T) -> T,
    mulRight: (T, real) -> T,
    mulLeft: (real, T) -> T,
    eq: (T, T) -> bool,
    ne: (T, T) -> bool,
    below: (T, real) -> bool,
    above: (T, real) -> bool,
    zero: T)

  /** The facts about the default value that the integrator's sentinel
      logic relies on: it is the additive identity, any multiple of it is
      itself, it is `==` to itself, and `!=` is the negation of `==`. */
  ghost predicate ZeroLaws<T(!new)>(ops: Ops<T>)
  {
    && (forall a :: ops.add(a, ops.zero) == a)
    && (forall k :: ops.mulLeft(k, ops.zero) == ops.zero)
    && (forall a, b :: ops.ne(a, b) == !ops.eq(a, b))
    && (forall a, b :: ops.eq(a, b) <==> a == b)
  }
}
