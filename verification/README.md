# Shuffler chromosome of OpenCLGA, modelled in Dafny

OpenCLGA runs a genetic algorithm on an OpenCL device. Populate and mutation
are one kernel dispatch each over the whole population. Crossover is two: a
single-work-item survivor update, then a population-wide crossover. `ShufflerChromosome` is the chromosome kind whose
genes are shuffled. It is an ordered list of genes. It exposes the genes' values
as one `dna` list. It writes the layout text that the kernels are compiled
with. It declares the kernels each stage needs and dispatches them, in a fixed
order and with fixed work sizes.

The model has five modules:

- `Outcomes`: Python's exceptions become values. A state-changing call returns
  `Step(state, outcome)`, where `state` is the object as the call left it. A
  read-only call returns `Result`.
- `Decimal`: Python's `str` of a non-negative int (`DecimalString`), with a
  parser. The round trip is proved in both directions.
- `Genes`: the gene, kept abstract. It has a value, its legal values on the host
  and on the device, and a kernel text. Gene objects live in a `Store`, a map
  from a gene's identity (`GeneId`) to its current state.
- `ShufflerChromosome`: the gene count, reading and writing `dna`, the gene
  value domains, and `kernelize`. The define `SHUFFLER_CHROMOSOME_GENE_SIZE` (`chromosome_size_define`)
  is a constant of this module.
- `KernelDispatch`: the device as the host sees it. That is whether the
  chromosome's own buffers exist, plus a log of allocations, launches and
  completions. Each stage's dispatches are data (`PopulatePlan`,
  `CrossoverPlan`, `MutationPlan`: kernel, global size, local size, arguments
  in order). One routine (`RunPlan`) runs a plan. It waits for each dispatch,
  so every launch is immediately followed by its completion. `Replay` runs any
  sequence of driver calls. `ReplayKeepsDiscipline` proves that the log stays
  disciplined under every such sequence:
  - dispatches are serialised;
  - the chromosome's buffers are never used before an allocation;
  - every crossover launch comes right after a completed single-work-item
    survivor update.

A chromosome holds references to the caller's gene objects and writes `dna`
into them in place. So a chromosome is a sequence of `GeneId`s, and a `dna`
write returns a new store. Every operation requires `Live`: each referenced
gene object exists. The same gene object may appear twice in one chromosome,
or in two chromosomes. A write then goes in list order, so a gene keeps the
value at its last position (`LastWrite`). When no gene object appears twice
(`Distinct`), reading the dna back gives exactly the written list.

The error cases follow the code:

- The `dna` setter's assertion becomes `ShapeMismatch`. It comes before any
  gene is written, so the chromosome is left unchanged.
- `kernelize` on an empty gene list reads `genes[0]` and raises. This is modelled
  as `NoGenes`, not as a precondition.
- `prg.<kernel>` on a program without that kernel raises. This is modelled as
  `MissingKernel`. Python evaluates the kernel lookup before the arguments, so
  this error wins over the next one.
- Reading `self.__dev_best` before `preexecute_kernels` raises. This is
  modelled as `NotPreexecuted`, and nothing is dispatched. If the survivor
  update ran but the crossover kernel is missing, the survivor update stays in
  the log.

Three checks one might expect are absent from the code, and the model follows the code:

- The survivor mask is never checked against the population that crossover is
  later given (`PopulationMismatchNotRejected`).
- Calling `preexecute_kernels` again simply allocates afresh. Nothing detects
  a second allocation.
- Crossover before allocation fails with Python's attribute error. No dedicated
  configuration error is raised.

## Model

| member | source | states |
|---|---|---|
| Decimal.DecimalString | evaluation/oclGA/shuffler_chromosome.py:66 | the decimal text of the gene count is canonical (digits only, no leading zero) and parses back to the count |
| Decimal.CanonicalRoundTrip | evaluation/oclGA/shuffler_chromosome.py:66 | every canonical digit string is exactly the text written for the number it denotes |
| ShufflerChromosome.GeneCountIsDnaLength | evaluation/oclGA/shuffler_chromosome.py:18-32 | `dna_total_length` (`DnaTotalLength`) equals `num_of_genes` (`NumOfGenes`), the number of genes, and the length of the dna read back |
| ShufflerChromosome.Dna | evaluation/oclGA/shuffler_chromosome.py:30-32 | reading dna yields one value per gene, the i-th being gene i's value |
| ShufflerChromosome.SetDna | evaluation/oclGA/shuffler_chromosome.py:34-38 | genes are written in place through the references kept at line 15: a write succeeds exactly when its length is the gene count; a wrong length raises ShapeMismatch (and only then) and leaves every gene unchanged; otherwise each referenced gene object takes the value at its last position in the list, no other gene object changes, and no gene's domains or kernel text change; when no gene object appears twice, reading dna back gives exactly the input |
| ShufflerChromosome.SetOwnDnaIsIdentity | evaluation/oclGA/shuffler_chromosome.py:30-38 | writing back the dna just read succeeds and changes no gene object, even when one appears twice |
| ShufflerChromosome.LastWriteWins | evaluation/oclGA/shuffler_chromosome.py:34-38 | two successful writes in a row leave the gene objects as the second write alone does |
| ShufflerChromosome.RepeatedGeneKeepsLastValue | evaluation/oclGA/shuffler_chromosome.py:34-38 | with genes kept by reference (line 15), a chromosome referring to one gene object twice, written with `[a, b]`, reads back `[b, b]` |
| ShufflerChromosome.SharedGeneSeenByBoth | evaluation/oclGA/shuffler_chromosome.py:34-38 | with genes kept by reference (line 15), a gene object shared by two chromosomes: a write through one shows in the other's dna |
| ShufflerChromosome.GeneElements | evaluation/oclGA/shuffler_chromosome.py:44-46 | empty when there are no genes, otherwise the first gene's legal values; for a chromosome whose genes share their legal values, those of every gene |
| ShufflerChromosome.GeneElementsInKernel | evaluation/oclGA/shuffler_chromosome.py:48-50 | empty when there are no genes, otherwise the first gene's device-side legal values; for a chromosome whose genes share them, those of every gene |
| ShufflerChromosome.DomainsIgnoreDna | evaluation/oclGA/shuffler_chromosome.py:34-50 | writing dna changes neither domain nor either kind of homogeneity |
| ShufflerChromosome.Kernelize | evaluation/oclGA/shuffler_chromosome.py:64-67 | raises exactly when there are no genes and succeeds exactly when there are some; the text is then the first gene's kernel text, then `#define ` and the `chromosome_size_define` name `SHUFFLER_CHROMOSOME_GENE_SIZE` (lines 60-62, `SizeDefine`) and a space, then a canonical decimal that parses to the gene count, then a newline |
| ShufflerChromosome.KernelizeIgnoresDna | evaluation/oclGA/shuffler_chromosome.py:64-67 | writing dna does not change the layout text |
| ShufflerChromosome.KernelizeDeterminesGeneCount | evaluation/oclGA/shuffler_chromosome.py:64-67 | with the same first-gene text, two layout texts are equal exactly when the gene counts are |
| ShufflerChromosome.KernelizeEightGenes | evaluation/oclGA/shuffler_chromosome.py:64-67 | with 8 genes the text ends with `#define SHUFFLER_CHROMOSOME_GENE_SIZE 8` and a newline |
| KernelDispatch.RunPlan | evaluation/oclGA/shuffler_chromosome.py:93-126 | dispatches the longest runnable prefix of a plan, each launch followed by its completion, raising for the first dispatch whose kernel is missing or whose own buffers are not allocated |
| KernelDispatch.Preexecute | evaluation/oclGA/shuffler_chromosome.py:69-81 | allocates a survivor mask of `population` slots and single-slot best and weakest values holding 0 |
| KernelDispatch.ExecutePopulate | evaluation/oclGA/shuffler_chromosome.py:93-98 | succeeds exactly when the populate kernel exists, needing no allocation, and then logs its plan's dispatch; otherwise raises and changes nothing |
| KernelDispatch.ExecuteCrossover | evaluation/oclGA/shuffler_chromosome.py:100-116 | succeeds exactly when both kernels exist and the buffers are allocated; a missing survivor kernel or missing buffers raise before anything is dispatched; a missing crossover kernel raises after the survivor update; the buffers keep their slot counts, and once the survivor update has run, best and weakest hold device-computed values instead of the contents copied in at allocation |
| KernelDispatch.ExecuteMutation | evaluation/oclGA/shuffler_chromosome.py:119-126 | succeeds exactly when the mutate kernel exists and then logs its plan's dispatch; otherwise raises and changes nothing |
| KernelDispatch.StagesDispatchDeclaredKernels | evaluation/oclGA/shuffler_chromosome.py:83-126 | each stage dispatches exactly the kernel names its `get_*_kernel_names` list (`PopulateKernelNames`, `CrossoverKernelNames`, `MutationKernelNames`) returns, in order; survivors update with global size 1, all else with the population |
| KernelDispatch.CrossoverOrder | evaluation/oclGA/shuffler_chromosome.py:100-116 | on an allocated device, crossover logs exactly: survivor update launched and completed (size 1), then crossover launched and completed (size population), both handed the survivor mask |
| KernelDispatch.PreexecuteIdempotent | evaluation/oclGA/shuffler_chromosome.py:69-81 | allocating twice with the same population gives the same buffers as once |
| KernelDispatch.ReallocationDiscardsSurvivorUpdate | evaluation/oclGA/shuffler_chromosome.py:69-108 | after a crossover the best and weakest buffers hold device-computed values; allocating again with the same population gives back the buffers of the first allocation, with 0 in best and weakest |
| KernelDispatch.PopulationMismatchNotRejected | evaluation/oclGA/shuffler_chromosome.py:69-116 | a 4-slot survivor mask does not stop a crossover over 8 individuals |
| KernelDispatch.ReplayKeepsDiscipline | evaluation/oclGA/shuffler_chromosome.py:69-126 | any sequence of driver calls keeps the log serialised, own buffers used only after an allocation, and each crossover right after a completed survivor update |
| KernelDispatch.RunFromStartIsDisciplined | evaluation/oclGA/shuffler_chromosome.py:69-126 | from a fresh chromosome, every call sequence leaves a disciplined log |
| KernelDispatch.AllocatedRunNeverRaises | evaluation/oclGA/shuffler_chromosome.py:69-126 | after allocation, with every declared kernel present, no kernel lookup or read of the chromosome's own buffers raises in any sequence of calls |
| KernelDispatch.CrossoverFirstRaises | evaluation/oclGA/shuffler_chromosome.py:100-108 | crossover before any allocation raises NotPreexecuted and dispatches nothing |

## Left out

- Construction (`__init__`, lines 12-16): the `isinstance` and list assertions are guaranteed by Dafny's typing. The `name` and `genes` properties are plain fields of the datatype.
- Changes to the gene list between calls: the chromosome keeps the caller's list object (line 15) and `genes` hands that same object out (lines 41-42), so whoever holds it can append or remove genes. A `Chromosome` value is that list as it stands at the moment of a call. Each call is modelled on that snapshot, so the gene count, the dna length the setter accepts and the define `kernelize` writes may differ from one call to the next in the source. The model does not promise that the gene list stays fixed for the instance's lifetime.
- Buffer creation, memory flags, command queues and `.wait()`: pyopencl device I/O. Only the allocation event, the buffers' shape and the serialised launch/completion order are kept.
- The bodies of the kernels in `shuffler_chromosome.c`: they run on the device and are not part of this model. This covers the survivor policy, what crossover and mutation do to the dna, and the population-level scenarios that depend on them.
- The survivor mask's contents: the buffer is write-only and created without host data, so only its slot count is modelled.
- KernelDispatch.ExecuteCrossover: the values the survivor update writes into the best and weakest buffers are computed on the device and never read back by the host. The model records only that those buffers hold device-computed values instead of the contents copied in at allocation; those values may be 0 again.
- `kernel_file` and `struct_name` (lines 52-58): constant strings that no modelled behaviour reads. The host loads and compiles the kernel file outside this class.
- `float32` conversion of the crossover and mutation probabilities: floating point. Probabilities are opaque `real` arguments.
- `generation_idx`, and the fitness buffer handed to `execute_mutation`: the source never passes them to a kernel.
- The class behind `SimpleGene`: it is not part of this model. A gene is a value, two domains and a kernel text.
- Zero-sized buffers: pyopencl's refusal of a buffer for a population of 0 is device behaviour and is not modelled.
- KernelDispatch.AllocatedRunNeverRaises: errors raised when a kernel is started or waited for are not modelled. These are device failures, and a global work size of 0 (a population of 0), which OpenCL before version 2.1 rejects. `execute_populate` and `execute_mutation` need no allocation, so they reach that launch as well. The lemma covers only the kernel lookups and the reads of the chromosome's own buffers.
- OpenCLGA/ui/src/components/config/share_result_row.js: a user-interface component with no logic of the chromosome layer.
