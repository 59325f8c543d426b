/** The shuffler chromosome: an ordered list of references to gene objects, its
    dna as a whole, the value domains of its genes, and the kernel text
    describing its layout.

    The chromosome keeps the caller's gene objects by reference, and writing
    its dna changes those objects in place. So the state a dna write changes is
    the store of gene objects, not the chromosome. */
module ShufflerChromosome {
  import opened Outcomes
  import opened Genes
  import opened Decimal

  /** A chromosome refers to its genes in order; `name` is an opaque label. */
  datatype Chromosome = Chromosome(genes: seq<GeneId>, name: string)

  /** `chromosome_size_define`: the name of the size constant the layout text defines. */
  const SizeDefine: string := "SHUFFLER_CHROMOSOME_GENE_SIZE"

  /** The text `kernelize` puts between the gene's kernel text and the gene count. */
  const DefinePrefix: string := "#define " + SizeDefine + " "

  /** Every gene the chromosome refers to exists in `store`. */
  ghost predicate Live<V, K>(store: Store<V, K>, c: Chromosome) {
    forall i :: 0 <= i < |c.genes| ==> c.genes[i] in store
  }

  /** No gene object appears twice in `ids`. */
  ghost predicate Distinct(ids: seq<GeneId>) {
    forall i, j :: 0 <= i < j < |ids| ==> ids[i] != ids[j]
  }

  /** Position `i` is the last time its gene appears in `ids`. */
  ghost predicate LastWrite(ids: seq<GeneId>, i: int) {
    0 <= i < |ids| && forall j :: i < j < |ids| ==> ids[j] != ids[i]
  }

  function NumOfGenes(c: Chromosome): nat {
    |c.genes|
  }

  /** One unit of heritable data per gene, so the total dna length is the gene count. */
  function DnaTotalLength(c: Chromosome): nat {
    NumOfGenes(c)
  }

  /** The values of the genes `ids` refers to, in order. */
  function Values<V, K>(store: Store<V, K>, ids: seq<GeneId>): (r: seq<V>)
    requires forall i :: 0 <= i < |ids| ==> ids[i] in store
    ensures |r| == |ids|
    ensures forall i :: 0 <= i < |ids| ==> r[i] == store[ids[i]].dna
  {
    if |ids| == 0 then [] else [store[ids[0]].dna] + Values(store, ids[1..])
  }

  /** Reading `dna`: one value per gene, in gene order. */
  function Dna<V, K>(store: Store<V, K>, c: Chromosome): (r: seq<V>)
    requires Live(store, c)
    ensures |r| == NumOfGenes(c)
    ensures forall i :: 0 <= i < |r| ==> r[i] == store[c.genes[i]].dna
  {
    Values(store, c.genes)
  }

  /** The setter's loop: gene `ids[i]` is given `values[i]`, in order. A gene
      referred to twice keeps the value of its last position. */
  function Assign<V, K>(store: Store<V, K>, ids: seq<GeneId>, values: seq<V>): (r: Store<V, K>)
    requires |values| == |ids|
    requires forall i :: 0 <= i < |ids| ==> ids[i] in store
    ensures r.Keys == store.Keys
    ensures forall id :: id in store ==> SameKind(store[id], r[id])
    ensures forall id :: id in store && id !in ids ==> r[id] == store[id]
    ensures forall i :: LastWrite(ids, i) ==> r[ids[i]].dna == values[i]
    decreases |ids|
  {
    if |ids| == 0 then store
    else
      var n := |ids| - 1;
      var before := Assign(store, ids[..n], values[..n]);
      var r := before[ids[n] := before[ids[n]].(dna := values[n])];
      AssignLastStep(store, ids, values, before, r);
      r
  }

  /** The last iteration of the setter's loop: writing position `n` on top of
      the writes of all earlier positions. */
  lemma AssignLastStep<V, K>(store: Store<V, K>, ids: seq<GeneId>, values: seq<V>,
                             before: Store<V, K>, r: Store<V, K>)
    requires |values| == |ids| > 0
    requires forall i :: 0 <= i < |ids| ==> ids[i] in store
    requires before.Keys == store.Keys
    requires forall id :: id in store ==> SameKind(store[id], before[id])
    requires forall id :: id in store && id !in ids[..|ids| - 1] ==> before[id] == store[id]
    requires forall i :: LastWrite(ids[..|ids| - 1], i) ==> before[ids[..|ids| - 1][i]].dna == values[i]
    requires r == before[ids[|ids| - 1] := before[ids[|ids| - 1]].(dna := values[|ids| - 1])]
    ensures r.Keys == store.Keys
    ensures forall id :: id in store ==> SameKind(store[id], r[id])
    ensures forall id :: id in store && id !in ids ==> r[id] == store[id]
    ensures forall i :: LastWrite(ids, i) ==> r[ids[i]].dna == values[i]
  {
    var n := |ids| - 1;
    var prefix := ids[..n];
    forall id | id in store && id !in ids
      ensures r[id] == store[id]
    {
      assert id != ids[n];
      assert id !in prefix;
    }
    forall i | LastWrite(ids, i)
      ensures r[ids[i]].dna == values[i]
    {
      if i < n {
        assert ids[i] != ids[n];
        assert LastWrite(prefix, i);
        assert prefix[i] == ids[i];
      }
    }
  }

  /** Writing `dna`. The length check comes before any gene is touched, so a
      wrong-length input raises and leaves every gene as it was. Otherwise
      each gene takes the value of its last position; when no gene object
      appears twice, reading the dna back gives exactly the input. */
  function SetDna<V, K>(store: Store<V, K>, c: Chromosome, values: seq<V>): (r: Step<Store<V, K>>)
    requires Live(store, c)
    ensures r.outcome == Done <==> |values| == NumOfGenes(c)
    ensures r.outcome == Raised(ShapeMismatch) <==> |values| != NumOfGenes(c)
    ensures r.outcome != Done ==> r.state == store
    ensures r.state.Keys == store.Keys
    ensures forall id :: id in store ==> SameKind(store[id], r.state[id])
    ensures forall id :: id in store && id !in c.genes ==> r.state[id] == store[id]
    ensures r.outcome == Done ==>
      forall i :: LastWrite(c.genes, i) ==> r.state[c.genes[i]].dna == values[i]
    ensures r.outcome == Done && Distinct(c.genes) ==> Dna(r.state, c) == values
  {
    if NumOfGenes(c) != |values| then Step(store, Raised(ShapeMismatch))
    else Step(Assign(store, c.genes, values), Done)
  }

  /** Every gene has the same legal values as the first. */
  ghost predicate HostHomogeneous<V, K>(store: Store<V, K>, c: Chromosome)
    requires Live(store, c)
  {
    forall i :: 0 <= i < |c.genes| ==> store[c.genes[i]].elements == store[c.genes[0]].elements
  }

  /** Every gene has the same device-side legal values as the first. */
  ghost predicate DeviceHomogeneous<V, K>(store: Store<V, K>, c: Chromosome)
    requires Live(store, c)
  {
    forall i :: 0 <= i < |c.genes| ==>
      store[c.genes[i]].elementsInKernel == store[c.genes[0]].elementsInKernel
  }

  /** The legal gene values of the chromosome: those of its first gene, which
      for a homogeneous chromosome are those of every gene; empty without genes. */
  function GeneElements<V, K>(store: Store<V, K>, c: Chromosome): (r: seq<V>)
    requires Live(store, c)
    ensures |c.genes| == 0 ==> r == []
    ensures |c.genes| > 0 ==> r == store[c.genes[0]].elements
    ensures HostHomogeneous(store, c) ==>
      forall i :: 0 <= i < |c.genes| ==> store[c.genes[i]].elements == r
  {
    if |c.genes| == 0 then [] else store[c.genes[0]].elements
  }

  /** The legal gene values as the device sees them, read as `GeneElements` reads the host ones. */
  function GeneElementsInKernel<V, K>(store: Store<V, K>, c: Chromosome): (r: seq<K>)
    requires Live(store, c)
    ensures |c.genes| == 0 ==> r == []
    ensures |c.genes| > 0 ==> r == store[c.genes[0]].elementsInKernel
    ensures DeviceHomogeneous(store, c) ==>
      forall i :: 0 <= i < |c.genes| ==> store[c.genes[i]].elementsInKernel == r
  {
    if |c.genes| == 0 then [] else store[c.genes[0]].elementsInKernel
  }

  /** The device-side layout text: the first gene's kernel text, then a define
      of the gene count. The count can be read back from the text. An empty
      chromosome has no gene 0 to ask, and raises. */
  function Kernelize<V, K>(store: Store<V, K>, c: Chromosome): (r: Result<string>)
    requires Live(store, c)
    ensures r == Err(NoGenes) <==> |c.genes| == 0
    ensures r.Ok? <==> |c.genes| > 0
    ensures r.Ok? ==>
      var k := store[c.genes[0]].kernelText;
      var t := r.value;
      var start := |k| + |DefinePrefix|;
      && start < |t|
      && t[..|k|] == k
      && t[|k|..start] == DefinePrefix
      && t[|t| - 1] == '\n'
      && Canonical(t[start..|t| - 1])
      && Parse(t[start..|t| - 1]) == NumOfGenes(c)
  {
    if |c.genes| == 0 then Err(NoGenes)
    else
      var k := store[c.genes[0]].kernelText;
      var count := DecimalString(NumOfGenes(c));
      var t := k + DefinePrefix + count + "\n";
      assert t[..|k|] == k;
      assert t[|k|..|k| + |DefinePrefix|] == DefinePrefix;
      assert t[|k| + |DefinePrefix|..|t| - 1] == count;
      Ok(t)
  }

  /** `dna_total_length` and `num_of_genes` agree with the length of the dna read back. */
  lemma GeneCountIsDnaLength<V, K>(store: Store<V, K>, c: Chromosome)
    requires Live(store, c)
    ensures DnaTotalLength(c) == NumOfGenes(c) == |Dna(store, c)| == |c.genes|
  {
  }

  /** Every gene a list refers to has a last position in it. */
  lemma {:induction false} LastPosition(ids: seq<GeneId>, id: GeneId) returns (i: int)
    requires id in ids
    ensures LastWrite(ids, i) && ids[i] == id
    decreases |ids|
  {
    if ids[|ids| - 1] == id {
      i := |ids| - 1;
    } else {
      var prefix := ids[..|ids| - 1];
      assert id in prefix by {
        var k :| 0 <= k < |ids| && ids[k] == id;
        assert prefix[k] == id;
      }
      i := LastPosition(prefix, id);
    }
  }

  /** Writing back the dna just read is a successful write that changes nothing,
      even when a gene object appears more than once. */
  lemma SetOwnDnaIsIdentity<V, K>(store: Store<V, K>, c: Chromosome)
    requires Live(store, c)
    ensures SetDna(store, c, Dna(store, c)) == Step(store, Done)
  {
    var d := Dna(store, c);
    var r := SetDna(store, c, d);
    forall id | id in store
      ensures r.state[id] == store[id]
    {
      if id in c.genes {
        var i := LastPosition(c.genes, id);
        assert r.state[id].dna == d[i] == store[id].dna;
        assert SameKind(store[id], r.state[id]);
      }
    }
    assert r.state == store;
  }

  /** Of two successful writes, only the second is visible. */
  lemma LastWriteWins<V, K>(store: Store<V, K>, c: Chromosome, a: seq<V>, b: seq<V>)
    requires Live(store, c)
    requires |a| == |b| == NumOfGenes(c)
    ensures SetDna(store, c, a).outcome == Done
    ensures SetDna(SetDna(store, c, a).state, c, b) == SetDna(store, c, b)
  {
    var s1 := SetDna(store, c, a).state;
    var r1 := SetDna(s1, c, b).state;
    var r2 := SetDna(store, c, b).state;
    forall id | id in store
      ensures r1[id] == r2[id]
    {
      assert SameKind(store[id], s1[id]) && SameKind(s1[id], r1[id]) && SameKind(store[id], r2[id]);
      if id in c.genes {
        var i := LastPosition(c.genes, id);
        assert r1[id].dna == b[i] == r2[id].dna;
      } else {
        assert r1[id] == s1[id] == store[id] == r2[id];
      }
    }
    assert r1 == r2;
  }

  /** A gene object referred to twice takes the second of the two values
      written: reading back `[a, b]` through `[g, g]` gives `[b, b]`. */
  lemma RepeatedGeneKeepsLastValue<V, K>(store: Store<V, K>, g: GeneId, name: string, a: V, b: V)
    requires g in store
    ensures var c := Chromosome([g, g], name);
      && SetDna(store, c, [a, b]).outcome == Done
      && Dna(SetDna(store, c, [a, b]).state, c) == [b, b]
  {
    var c := Chromosome([g, g], name);
    assert LastWrite(c.genes, 1);
  }

  /** A gene object shared with another chromosome: writing one chromosome's
      dna shows in the other's. */
  lemma SharedGeneSeenByBoth<V, K>(store: Store<V, K>, c: Chromosome, d: Chromosome, values: seq<V>, i: int, j: int)
    requires Live(store, c) && Live(store, d)
    requires |values| == NumOfGenes(c)
    requires LastWrite(c.genes, i) && 0 <= j < |d.genes| && d.genes[j] == c.genes[i]
    ensures Dna(SetDna(store, c, values).state, d)[j] == values[i]
  {
  }

  /** The value domains do not depend on the genes' values: writing dna keeps them. */
  lemma DomainsIgnoreDna<V, K>(store: Store<V, K>, c: Chromosome, values: seq<V>)
    requires Live(store, c)
    ensures GeneElements(SetDna(store, c, values).state, c) == GeneElements(store, c)
    ensures GeneElementsInKernel(SetDna(store, c, values).state, c) == GeneElementsInKernel(store, c)
    ensures HostHomogeneous(SetDna(store, c, values).state, c) <==> HostHomogeneous(store, c)
    ensures DeviceHomogeneous(SetDna(store, c, values).state, c) <==> DeviceHomogeneous(store, c)
  {
  }

  /** The layout text depends on the gene count and first gene only: writing dna keeps it. */
  lemma KernelizeIgnoresDna<V, K>(store: Store<V, K>, c: Chromosome, values: seq<V>)
    requires Live(store, c)
    ensures Kernelize(SetDna(store, c, values).state, c) == Kernelize(store, c)
  {
  }

  /** Two chromosomes whose first genes give the same kernel text have the same
      layout text exactly when they have the same number of genes. */
  lemma KernelizeDeterminesGeneCount<V, K>(store: Store<V, K>, c: Chromosome, d: Chromosome)
    requires Live(store, c) && Live(store, d)
    requires |c.genes| > 0 && |d.genes| > 0
    requires store[c.genes[0]].kernelText == store[d.genes[0]].kernelText
    ensures Kernelize(store, c) == Kernelize(store, d) <==> NumOfGenes(c) == NumOfGenes(d)
  {
  }

  /** With eight genes the layout text ends with the line defining the gene size as 8. */
  lemma {:induction false} KernelizeEightGenes<V, K>(store: Store<V, K>, c: Chromosome)
    requires Live(store, c)
    requires NumOfGenes(c) == 8
    ensures Kernelize(store, c).Ok?
    ensures var t := Kernelize(store, c).value;
      |t| >= 40 && t[|t| - 40..] == "#define SHUFFLER_CHROMOSOME_GENE_SIZE 8\n"
  {
    var k := store[c.genes[0]].kernelText;
    var line := DefinePrefix + "8\n";
    assert line == "#define SHUFFLER_CHROMOSOME_GENE_SIZE 8\n";
    assert DecimalString(8) == "8";
    var t := Kernelize(store, c).value;
    assert t == k + line;
    assert |t| - 40 == |k|;
    assert t[|k|..] == line;
  }
}
