/** The gene a shuffler chromosome is built from. Its class is not part of this
    model; only what the chromosome reads of it is kept. Genes are objects: a
    chromosome holds references to them, and the same gene object may be
    referenced more than once. */
module Genes {

  /** A gene: its current value (`dna`), its legal values (`elements`), the same
      legal values as the device sees them (`elementsInKernel`), and the kernel
      source text it contributes (`kernelText`). */
  datatype Gene<V, K> = Gene(dna: V, elements: seq<V>, elementsInKernel: seq<K>, kernelText: string)

  /** The identity of a gene object. */
  type GeneId = nat

  /** The gene objects alive in the program, by identity. */
  type Store<V, K> = map<GeneId, Gene<V, K>>

  /** `h` is `g` with possibly another value: everything but `dna` agrees. */
  ghost predicate SameKind<V, K>(g: Gene<V, K>, h: Gene<V, K>) {
    && h.elements == g.elements
    && h.elementsInKernel == g.elementsInKernel
    && h.kernelText == g.kernelText
  }
}
