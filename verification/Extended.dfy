/** Reals extended with both infinities: the NaN-free part of the source's float domain. */
module Extended {

  datatype Ext = NegInf | Fin(r: real) | PosInf

  predicate Lt(a: Ext, b: Ext) {
    match a
    case NegInf => b != NegInf
    case PosInf => false
    case Fin(x) => b.PosInf? || (b.Fin? && x < b.r)
  }

  predicate Le(a: Ext, b: Ext) {
    !Lt(b, a)
  }
}
