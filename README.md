# plover-hatchery core, modelled in Dafny

This project models the lookup machinery of plover-hatchery, a Plover stenography
plugin that builds outlines for words from their phonetic entry definitions. It also
models the text format that feeds that machinery. It is written in Dafny 4.11. Every
member carries a contract, and the verifier checks each contract against the
member's body.

The modules follow the repository's own parts:

- **The nondeterministic trie**, written twice in the source: in Rust
  (`nondeterministic_trie.rs`) and in Python (`NondeterministicTrie.py`). Nodes are
  indices into a growing list. An edge is a transition (source, key, index). Costs
  are kept per (transition, translation).
  - `TrieSpec` holds the trie as a value, with its invariant and the build
    operations as functions. These are `follow`, `follow_chain`, `link`,
    `link_chain` and `link_join_chain`.
  - `TrieLookup` holds the queries: traversal with epsilon closure, and per-path
    costs and minimum costs. It also holds reverse lookup and the subtrie search.
  - `NondeterministicTrieRs` and `NondeterministicTriePy` hold classes whose methods
    update their fields. Each method is proved equal to the specification functions.
  - Companions: `DeterministicTrie`, which holds `Trie` and `ReadonlyTrie`, the key interning
    table `KeyIds`, and the `TransitionFlags` manager.
- **The entry-definition format**, for example `a.a n.ng x.(g z) i.ae!1`.
  - Items and printers: `DefItems`.
  - The Rust lexer and parser: `Lex` and `Parse`. `ParseRoundTrip` proves that
    printing and then parsing gives back what was printed. `ParseExamples`,
    `ParsePyExamples` and `OrthoParseExamples` cover the unit tests and sample lines.
  - The Python lexer and parser: `LexPy` and `ParsePy`.
  - The older state-machine parser: `OrthoParse`.
  - Stress normalisation on the Python keysymbol: `KeysymbolPy`.
- **Definition trees**.
  - `Defs` holds the dictionary of named entries.
  - `DefView` holds depth-first collection with cycle detection, translation, and
    reading by index path.
  - `DefCursor` holds the child and stack cursors.
  - `DefinitionCursor` holds the older cursors.
  - `DefViewExamples` holds sample dictionaries.
- **Phoneme and sound index arithmetic**.
  - `PhonemeNav`: (sopheme, keysymbol) positions over sopheme sequences.
  - `OutlineSoundIndexes`: consonant/vowel groups.
  - `OutlineBuilder`: grouping the sounds of an outline.
  - `EntryState`: the entry builder's state and its eliders.
  - `TheoryService`: greedy longest-match splitting of consonant chords, and bank
    splitting.
- **Alignment and morphology**.
  - `Alignment`: the generic dynamic-programming aligner. Its matrix fill is proved
    to agree with a Bellman-style specification, and the traceback is covered too.
  - `MatchSophemes` and `MatchMorphology`: the aligner's instances.
  - `ParseMorphology`: the morphology bracket parser.
  - `GenerateFromUnilex`: the Unilex entry converter and its id allocator.
- **Stroke order and lookup-result filters**.
  - `Steno`, `Banks` and `FloatingKeys`: stroke order.
  - `ConsonantInversions` and `IntrabankConsonantInversions`: the consonant-inversion
    validators.
  - `AltChords`: the alternate-chord rule.
  - `ConflictCycler`: the conflict cycler.
  - `IterHelpers`: the generator combinators.

`Transition` (transition and cost identifiers), `TrieExamples` (the trie's unit
tests), `Wrappers` (Option, Result) and `Text` (character classes, decimal numbers, joining)
are shared by all of these.

Representation choices:

- Plover's `Stroke` is a set of key positions, numbered in steno order.
- Costs are integers, where the source uses floats. An absent cost is a missing map
  key; the Rust code uses infinity only to mean "absent".
- Hash-map iteration order is abstracted. Results that the source builds by
  iterating a hash map are stated only through order-independent properties.
- A Python exception that the source raises on a reachable input is modelled as an
  error value (`Result`, `Outcome`, `Raising`). This covers `KeyError`,
  `ValueError`, `ParserException`, `TypeError`, `AttributeError`, `IndexError`,
  a loop that never ends, and a division by zero.
- An index that the source only ever receives in range (node ids, positions
  produced by the same object) is a precondition.

## Model

One row per member whose contract states something about the source. The
source column gives the lines the member models, relative to the repository root.

| member | source | states |
|---|---|---|
| TrieSpec.Empty | plover_hatchery_lib_rs/src/trie/nondeterministic_trie.rs:193-200 | a new trie has exactly one node (the root) and no translations, costs or used nodes |
| TrieSpec.RecordCost | plover_hatchery_lib_rs/src/trie/nondeterministic_trie.rs:209-223 | the stored cost for the key becomes the smaller of the new and the old cost; no other entry changes and no stored cost increases |
| TrieSpec.FirstUnused | plover_hatchery_lib_rs/src/trie/nondeterministic_trie.rs:240-253 | the position of the first destination the translation has not used, every earlier one being used; none when all are used |
| TrieSpec.Follow | plover_hatchery_lib_rs/src/trie/nondeterministic_trie.rs:225-279 | following keeps the trie valid, only adds nodes, and ends at an existing node |
| TrieSpec.FollowProps | plover_hatchery_lib_rs/src/trie/nondeterministic_trie.rs:225-279 | follow takes one transition labelled with the key from the source, reusing the first unused destination at its index or appending a fresh node at index len(list); the node becomes used by the translation and only that transition's cost changes, to the minimum |
| TrieSpec.FollowChain | plover_hatchery_lib_rs/src/trie/nondeterministic_trie.rs:281-309 | following a chain keeps the trie valid and only grows it |
| TrieSpec.FollowChainProps | plover_hatchery_lib_rs/src/trie/nondeterministic_trie.rs:281-309 | the chain path has one transition per key and walks from the source to its end; every transition costs 0 for the translation except the last, which costs at most the caller's cost; other costs never increase |
| TrieSpec.Link | plover_hatchery_lib_rs/src/trie/nondeterministic_trie.rs:311-344 | linking keeps the trie valid and adds no node; the returned transition leads to the destination |
| TrieSpec.LinkIdempotent | plover_hatchery_lib_rs/src/trie/nondeterministic_trie.rs:320-324 | linking the same edge a second time returns the same transition and leaves the trie unchanged |
| TrieSpec.SameTargetSameIndex | plover_hatchery_lib_rs/src/trie/nondeterministic_trie.rs:320-330 | two transitions of one list that lead to the same node have the same index, so no destination is listed twice |
| TrieSpec.RecordCostIdempotent | plover_hatchery_lib_rs/src/trie/nondeterministic_trie.rs:209-223 | recording a cost no lower than the stored one leaves the cost table unchanged |
| TrieSpec.LinkChain | plover_hatchery_lib_rs/src/trie/nondeterministic_trie.rs:346-374 | link_chain keeps the trie valid; with no keys it changes nothing and returns no transitions |
| TrieSpec.LinkChainProps | plover_hatchery_lib_rs/src/trie/nondeterministic_trie.rs:346-374 | a linked chain has one transition per key, walks from the source to the destination, and costs 0 on all but its last transition |
| TrieSpec.Pairs | plover_hatchery_lib_rs/src/trie/nondeterministic_trie.rs:414-420 | every (source, key chain) pair in source-major order; the first pair is (first source, first chain) |
| TrieSpec.LinkAll | plover_hatchery_lib_rs/src/trie/nondeterministic_trie.rs:450-455 | linking every pair to the destination keeps the trie valid |
| TrieSpec.LinkAllProps | plover_hatchery_lib_rs/src/trie/nondeterministic_trie.rs:450-455 | linking every pair gives one transition sequence per pair, each walking from its source to the destination |
| TrieSpec.LinkJoinChain | plover_hatchery_lib_rs/src/trie/nondeterministic_trie.rs:396-461 | the joined destination is None exactly when there are no sources or no chains, in which case nothing changes; a given destination is kept |
| TrieSpec.LinkJoinChainProps | plover_hatchery_lib_rs/src/trie/nondeterministic_trie.rs:396-461 | one transition sequence per (source, chain) pair in source-major order, all reaching the common destination; costs never increase and translations are untouched |
| TrieSpec.SetTranslation | plover_hatchery_lib_rs/src/trie/nondeterministic_trie.rs:463-469 | the translation is appended to the node's list; other nodes, transitions and costs are unchanged |
| TrieSpec.IncrementCostsCompose | plover_hatchery_lib_rs/src/trie/nondeterministic_trie.rs:125-135 | two cost increments compose by addition, and an increment of 0 changes nothing |
| TrieSpec.AddFlagsCompose | plover_hatchery_lib_rs/src/trie/nondeterministic_trie.rs:137-150 | two flag additions compose by concatenation |
| TrieLookup.Closure | plover_hatchery_lib_rs/src/trie/nondeterministic_trie.rs:498-529 | the epsilon closure starts with the path itself |
| TrieLookup.ClosureSound | plover_hatchery_lib_rs/src/trie/nondeterministic_trie.rs:498-529 | every path of the epsilon closure extends the start by epsilon transitions that form a walk, none taken twice and none already visited |
| TrieLookup.Traverse | plover_hatchery_lib_rs/src/trie/nondeterministic_trie.rs:471-496 | every traversed path ends at an existing node |
| TrieLookup.TraverseSound | plover_hatchery_lib_rs/src/trie/nondeterministic_trie.rs:471-496 | every path a traversal yields is a source path, one transition under the key, then epsilon transitions only |
| TrieLookup.TraverseChain | plover_hatchery_lib_rs/src/trie/nondeterministic_trie.rs:531-542 | every path of a chain traversal ends at an existing node |
| TrieLookup.TraverseChainSound | plover_hatchery_lib_rs/src/trie/nondeterministic_trie.rs:531-542 | every path of a chain traversal extends a source path by a walk with at least one transition per key |
| TrieLookup.PathCost | plover_hatchery_lib_rs/src/trie/nondeterministic_trie.rs:556-569 | the cost loop gives up (None) exactly when some transition has no cost for the translation |
| TrieLookup.PathCostIsSum | plover_hatchery_lib_rs/src/trie/nondeterministic_trie.rs:556-569 | when every transition is costed, the accumulated cost is the sum of the transition costs |
| TrieLookup.CostsForMembers | plover_hatchery_lib_rs/src/trie/nondeterministic_trie.rs:544-576 | a (translation, cost) pair is reported exactly when the translation is listed, every transition has a cost for it, and the cost is their sum |
| TrieLookup.CostsSingleMembers | plover_hatchery_lib_rs/src/trie/nondeterministic_trie.rs:544-576 | the same characterisation for the translations stored at the node; a node without translations reports nothing |
| TrieLookup.CostsMembers | plover_hatchery_lib_rs/src/trie/nondeterministic_trie.rs:578-590 | a lookup result is produced for a path exactly when its translation sits at the path's end and the path is fully costed, with the summed cost |
| TrieLookup.FoldMinKeepsFirstMin | plover_hatchery_lib_rs/src/trie/nondeterministic_trie.rs:607-633 | the minimum-cost fold keeps, for each translation that occurs, the first of its results with the lowest cost, and nothing for translations that do not occur |
| TrieLookup.EntriesMembers | plover_hatchery_lib_rs/src/trie/nondeterministic_trie.rs:661-679 | the reverse entries under a node and key are exactly the transitions under that key that lead to the node |
| TrieLookup.PushRev | plover_hatchery_lib_rs/src/trie/nondeterministic_trie.rs:668-673 | pushing a reverse entry appends it to the list under its node and key only, and never stores an empty list |
| TrieLookup.ReverseOfSound | plover_hatchery_lib_rs/src/trie/nondeterministic_trie.rs:661-679 | every entry of the reverse node map names a transition into its node |
| TrieLookup.ReverseOfComplete | plover_hatchery_lib_rs/src/trie/nondeterministic_trie.rs:661-679 | every transition of the trie appears in the reverse node map under its destination |
| TrieLookup.ReverseTranslationsMembers | plover_hatchery_lib_rs/src/trie/nondeterministic_trie.rs:681-695 | a node is listed for a translation in the reverse map exactly when the node carries that translation |
| NondeterministicTrieRs.FindUnused | plover_hatchery_lib_rs/src/trie/nondeterministic_trie.rs:237-251 | the scan returns the position of the first destination the translation has not used (as `FirstUnused` characterises it) |
| NondeterministicTrieRs.ReverseStep | plover_hatchery_lib_rs/src/trie/nondeterministic_trie.rs:744-771 | stepping backwards along a costed reverse entry keeps the search path a walk to the start node, fully costed, with the accumulated cost equal to the sum |
| NondeterministicTrieRs.NondeterministicTrie.constructor | plover_hatchery_lib_rs/src/trie/nondeterministic_trie.rs:193-200 | a new trie is the empty state: the root only, and it is valid |
| NondeterministicTrieRs.NondeterministicTrie.CreateNewNode | plover_hatchery_lib_rs/src/trie/nondeterministic_trie.rs:202-207 | returns the old node count and appends one node without edges; nothing else changes |
| NondeterministicTrieRs.NondeterministicTrie.AssignTransitionCost | plover_hatchery_lib_rs/src/trie/nondeterministic_trie.rs:209-223 | the cost table becomes the minimum of the stored and the new cost at that key, a missing cost counting as infinite; nothing else changes |
| NondeterministicTrieRs.NondeterministicTrie.Follow | plover_hatchery_lib_rs/src/trie/nondeterministic_trie.rs:225-279 | the new state and path are those of the follow specification, whose properties `TrieSpec.FollowProps` proves; the trie stays valid |
| NondeterministicTrieRs.NondeterministicTrie.FollowChain | plover_hatchery_lib_rs/src/trie/nondeterministic_trie.rs:281-309 | the new state and path are those of the chain specification (`TrieSpec.FollowChainProps`); the trie stays valid |
| NondeterministicTrieRs.NondeterministicTrie.Link | plover_hatchery_lib_rs/src/trie/nondeterministic_trie.rs:311-344 | the new state and returned transition are those of the link specification, which `TrieSpec.LinkIdempotent` proves idempotent |
| NondeterministicTrieRs.NondeterministicTrie.LinkChain | plover_hatchery_lib_rs/src/trie/nondeterministic_trie.rs:346-374 | the new state and transitions are those of the link-chain specification (`TrieSpec.LinkChainProps`) |
| NondeterministicTrieRs.NondeterministicTrie.LinkAll | plover_hatchery_lib_rs/src/trie/nondeterministic_trie.rs:437-455 | linking every pair in order gives the state and one transition sequence per pair as `TrieSpec.LinkAll` specifies |
| NondeterministicTrieRs.NondeterministicTrie.LinkJoinChain | plover_hatchery_lib_rs/src/trie/nondeterministic_trie.rs:396-461 | the new state and joined paths are those of the join specification (`TrieSpec.LinkJoinChainProps`) |
| NondeterministicTrieRs.NondeterministicTrie.LinkJoin | plover_hatchery_lib_rs/src/trie/nondeterministic_trie.rs:376-392 | link_join is link_join_chain with every key as a one-key chain |
| NondeterministicTrieRs.NondeterministicTrie.SetTranslation | plover_hatchery_lib_rs/src/trie/nondeterministic_trie.rs:463-469 | the translation is appended at the node, as `TrieSpec.SetTranslation` specifies; the trie stays valid |
| NondeterministicTrieRs.NondeterministicTrie.PathCostOf | plover_hatchery_lib_rs/src/trie/nondeterministic_trie.rs:556-569 | the cost is present exactly when every transition is costed for the translation, and then it is the sum |
| NondeterministicTrieRs.NondeterministicTrie.GetTranslationsAndCostsSingle | plover_hatchery_lib_rs/src/trie/nondeterministic_trie.rs:544-576 | the results are the node's translations whose path is fully costed, with the summed cost (see `TrieLookup.CostsSingleMembers`) |
| NondeterministicTrieRs.NondeterministicTrie.GetTranslationsAndCosts | plover_hatchery_lib_rs/src/trie/nondeterministic_trie.rs:578-590 | the results are those of every path in turn (see `TrieLookup.CostsMembers`) |
| NondeterministicTrieRs.NondeterministicTrie.GetTranslationsAndMinCosts | plover_hatchery_lib_rs/src/trie/nondeterministic_trie.rs:607-633 | the result map is the minimum-cost fold of all results (see `TrieLookup.FoldMinKeepsFirstMin`) |
| NondeterministicTrieRs.NondeterministicTrie.NNodes | plover_hatchery_lib_rs/src/trie/nondeterministic_trie.rs:646-649 | a valid trie always has at least one node |
| NondeterministicTrieRs.NondeterministicTrie.GetTransitionCost | plover_hatchery_lib_rs/src/trie/nondeterministic_trie.rs:592-600 | a cost is returned exactly when one is stored for the transition and translation, and it is the stored one |
| NondeterministicTrieRs.NondeterministicTrie.GetAllTranslationIds | plover_hatchery_lib_rs/src/trie/nondeterministic_trie.rs:651-659 | a translation id is returned exactly when some node carries it |
| NondeterministicTrieRs.NondeterministicTrie.ReversedNodes | plover_hatchery_lib_rs/src/trie/nondeterministic_trie.rs:661-679 | the result is the reverse of the edges: under each node and key exactly the transitions into that node, and no empty list |
| NondeterministicTrieRs.NondeterministicTrie.DfsReverseLookup | plover_hatchery_lib_rs/src/trie/nondeterministic_trie.rs:722-776 | every result added is a walk from the root to the start node, fully costed for the translation, with the summed cost; earlier results are kept |
| NondeterministicTrieRs.NondeterministicTrie.GetReverseLookupResults | plover_hatchery_lib_rs/src/trie/nondeterministic_trie.rs:697-720 | every reverse lookup result is a walk from the root to a node carrying the translation that the forward lookup would report with the same cost |
| NondeterministicTrieRs.NondeterministicTrie.DfsSubtrie | plover_hatchery_lib_rs/src/trie/nondeterministic_trie.rs:833-877 | the search visits the node, appends each node once after its sources, and records only transitions that exist and carry a cost for the translation |
| NondeterministicTrieRs.NondeterministicTrie.GetSubtrieData | plover_hatchery_lib_rs/src/trie/nondeterministic_trie.rs:779-831 | None exactly when no node carries the translation; otherwise the carrying nodes, a duplicate-free node order that contains them all, and transitions that exist and are costed |
| NondeterministicTrieRs.NondeterministicTrie.SubtrieTransitions | plover_hatchery_lib_rs/src/trie/nondeterministic_trie.rs:800-813 | one subtrie transition per recorded (source, destination) pair, each key info naming a costed transition with its stored cost |
| NondeterministicTrieRs.NondeterministicTrie.ReversedTranslations | plover_hatchery_lib_rs/src/trie/nondeterministic_trie.rs:681-695 | under each translation, each node is listed once per occurrence of the translation at that node, and no empty list is stored |
| NondeterministicTrieRs.BuildPairs | plover_hatchery_lib_rs/src/trie/nondeterministic_trie.rs:412-418 | the nested loops build the pairs in source-major order (`TrieSpec.Pairs`) |
| NondeterministicTrieRs.InsertAllMin | plover_hatchery_lib_rs/src/trie/nondeterministic_trie.rs:612-630 | inserting results one by one is the minimum-cost fold |
| NondeterministicTrieRs.AddHits | plover_hatchery_lib_rs/src/trie/nondeterministic_trie.rs:666-673 | recording one node's transitions under a key appends exactly those leading to each destination, in index order |
| NondeterministicTrieRs.AddNodeEdges | plover_hatchery_lib_rs/src/trie/nondeterministic_trie.rs:665-674 | recording a node's transitions appends, under every destination and key, exactly its transitions that lead there |
| NondeterministicTrieRs.AddNode | plover_hatchery_lib_rs/src/trie/nondeterministic_trie.rs:685-692 | recording a node adds it under each of its translations once per occurrence |
| NondeterministicTriePy.IncrementSrcCostsCompose | plover_hatchery/lib/trie/NondeterministicTrie.py:36-39 | cost increments compose by addition, and 0 changes nothing |
| NondeterministicTriePy.KeyedEmpty | plover_hatchery/lib/trie/NondeterministicTrie.py:47-60 | a new trie holds only the root and no interned keys |
| NondeterministicTriePy.KeyedFollow | plover_hatchery/lib/trie/NondeterministicTrie.py:63-96 | following interns the key, keeps the trie valid, only grows it, and ends at an existing node |
| NondeterministicTriePy.KeyedFollowChain | plover_hatchery/lib/trie/NondeterministicTrie.py:99-118 | following a chain keeps the trie valid and only grows it |
| NondeterministicTriePy.KeyedFollowChainById | plover_hatchery/lib/trie/NondeterministicTrie.py:99-118 | following a chain of keys is interning them all and following the chain of their ids as the Rust trie does |
| NondeterministicTriePy.KeyedFollowChainProps | plover_hatchery/lib/trie/NondeterministicTrie.py:99-118 | the path has one transition per key, labelled with its id, walks from the source to its end, costs 0 on all but the last transition; an empty chain changes nothing and stays at the source |
| NondeterministicTriePy.KeyedLink | plover_hatchery/lib/trie/NondeterministicTrie.py:264-287 | linking keeps the trie valid and adds no node |
| NondeterministicTriePy.KeyedLinkProps | plover_hatchery/lib/trie/NondeterministicTrie.py:264-287 | the returned transition leads from the source to the destination under the key's id; an existing edge is reused, otherwise the destination is appended to the list; only its cost changes (to the minimum) and no node is marked used |
| NondeterministicTriePy.KeyedLinkIdempotent | plover_hatchery/lib/trie/NondeterministicTrie.py:270-276 | linking the same edge twice is linking it once |
| NondeterministicTriePy.KeyedLinkChain | plover_hatchery/lib/trie/NondeterministicTrie.py:290-299 | link_chain keeps the trie valid and only grows it |
| NondeterministicTriePy.KeyedLinkChainProps | plover_hatchery/lib/trie/NondeterministicTrie.py:290-299 | an empty chain is an IndexError and changes nothing; otherwise the transitions carry the keys' ids, walk from the source to the destination, and cost 0 on all but the last |
| NondeterministicTriePy.KeyedLinkAll | plover_hatchery/lib/trie/NondeterministicTrie.py:151-153 | linking every remaining pair keeps the trie valid |
| NondeterministicTriePy.KeyedLinkAllProps | plover_hatchery/lib/trie/NondeterministicTrie.py:151-153 | linking every pair fails exactly when some pair's chain is empty; otherwise each pair gets a sequence as long as its chain that walks from its source to the destination |
| NondeterministicTriePy.KeyedJoinChain | plover_hatchery/lib/trie/NondeterministicTrie.py:130-155 | join_chain keeps the trie valid and only grows it |
| NondeterministicTriePy.KeyedJoinChainProps | plover_hatchery/lib/trie/NondeterministicTrie.py:130-155 | with no sources or no chains the result is (None, ()) and nothing changes; otherwise the first pair is followed and every later pair linked to its end, failing exactly when a later chain is empty |
| NondeterministicTriePy.KeyedLinkJoinChain | plover_hatchery/lib/trie/NondeterministicTrie.py:168-190 | link_join_chain keeps the trie valid and only grows it |
| NondeterministicTriePy.KeyedLinkJoinChainProps | plover_hatchery/lib/trie/NondeterministicTrie.py:168-190 | with a given destination every pair is linked to it, failing exactly when some chain is empty, and every sequence reaches the destination |
| NondeterministicTriePy.SingletonJoinsSucceed | plover_hatchery/lib/trie/NondeterministicTrie.py:158-165 | joining with one key per source never hits the empty-chain IndexError |
| NondeterministicTriePy.AllowedByAll | plover_hatchery/lib/trie/NondeterministicTrie.py:193-194 | a transition is allowed exactly when every registered handler allows it |
| NondeterministicTriePy.KeyedTraverse | plover_hatchery/lib/trie/NondeterministicTrie.py:201-226 | every traversed path ends at an existing node |
| NondeterministicTriePy.KeyedTraverseChain | plover_hatchery/lib/trie/NondeterministicTrie.py:229-241 | every path of a chain traversal ends at an existing node |
| NondeterministicTriePy.KeyedTraverseChainById | plover_hatchery/lib/trie/NondeterministicTrie.py:201-241 | a chain with a key never interned yields nothing; otherwise it is the traversal of the chain of key ids |
| NondeterministicTriePy.KeyedTraverseChainFromNothing | plover_hatchery/lib/trie/NondeterministicTrie.py:229-241 | traversing from no paths yields nothing |
| NondeterministicTriePy.Utf8TwoBytes | plover_hatchery/lib/trie/NondeterministicTrie.py:590-594 | the two UTF-8 bytes of a code point below 0x800, which decode back to it |
| NondeterministicTriePy.EpsilonLabelMisencoded | plover_hatchery/lib/trie/NondeterministicTrie.py:592 | the epsilon label as written is the UTF-8 bytes of "(ε)" read as Latin-1, four characters instead of three |
| NondeterministicTriePy.NondeterministicTrie.constructor | plover_hatchery/lib/trie/NondeterministicTrie.py:47-60 | a new trie is the empty keyed state with no handlers |
| NondeterministicTriePy.NondeterministicTrie.GetKeyIdElseCreate | plover_hatchery/lib/trie/NondeterministicTrie.py:420-430 | interning: None stays None, a known key keeps its id, a new key gets the next id; the trie is unchanged |
| NondeterministicTriePy.NondeterministicTrie.CreateNewNode | plover_hatchery/lib/trie/NondeterministicTrie.py:432-435 | returns the old node count and appends a node without edges; nothing else changes |
| NondeterministicTriePy.NondeterministicTrie.AssignTransitionCost | plover_hatchery/lib/trie/NondeterministicTrie.py:437-443 | no cost info changes nothing; otherwise the cost at the key becomes the minimum of the stored and new cost |
| NondeterministicTriePy.NondeterministicTrie.TransitionHasCostForTranslation | plover_hatchery/lib/trie/NondeterministicTrie.py:445-450 | true exactly when get_transition_cost would not raise |
| NondeterministicTriePy.NondeterministicTrie.Follow | plover_hatchery/lib/trie/NondeterministicTrie.py:63-96 | the new state and path are those of `KeyedFollow` |
| NondeterministicTriePy.NondeterministicTrie.FollowChain | plover_hatchery/lib/trie/NondeterministicTrie.py:99-118 | the new state and path are those of `KeyedFollowChain` |
| NondeterministicTriePy.NondeterministicTrie.Link | plover_hatchery/lib/trie/NondeterministicTrie.py:264-287 | the new state and transition are those of `KeyedLink` |
| NondeterministicTriePy.NondeterministicTrie.LinkChain | plover_hatchery/lib/trie/NondeterministicTrie.py:290-299 | the new state and result (IndexError on an empty chain) are those of `KeyedLinkChain` |
| NondeterministicTriePy.NondeterministicTrie.LinkAll | plover_hatchery/lib/trie/NondeterministicTrie.py:151-153 | the new state and result are those of `KeyedLinkAll` |
| NondeterministicTriePy.NondeterministicTrie.JoinChain | plover_hatchery/lib/trie/NondeterministicTrie.py:130-155 | the new state and result are those of `KeyedJoinChain` |
| NondeterministicTriePy.NondeterministicTrie.Join | plover_hatchery/lib/trie/NondeterministicTrie.py:121-127 | join is join_chain over one-key chains, and never fails |
| NondeterministicTriePy.NondeterministicTrie.LinkJoinChain | plover_hatchery/lib/trie/NondeterministicTrie.py:168-190 | the new state and result are those of `KeyedLinkJoinChain` |
| NondeterministicTriePy.NondeterministicTrie.LinkJoin | plover_hatchery/lib/trie/NondeterministicTrie.py:158-165 | link_join is link_join_chain over one-key chains, and never fails |
| NondeterministicTriePy.NondeterministicTrie.OnCheckTraverse | plover_hatchery/lib/trie/NondeterministicTrie.py:197-198 | the handler is appended to the handler list; the trie is unchanged |
| NondeterministicTriePy.NondeterministicTrie.SetTranslation | plover_hatchery/lib/trie/NondeterministicTrie.py:302-306 | the translation is appended to the node's list |
| NondeterministicTriePy.NondeterministicTrie.Traverse | plover_hatchery/lib/trie/NondeterministicTrie.py:201-226 | a key never interned yields nothing; otherwise the traversal of its id under the registered handlers |
| NondeterministicTriePy.NondeterministicTrie.TraverseChain | plover_hatchery/lib/trie/NondeterministicTrie.py:229-241 | a chain with an unknown key yields nothing; otherwise the traversal of the chain of ids |
| NondeterministicTriePy.NondeterministicTrie.GetTranslationsAndCostsSingle | plover_hatchery/lib/trie/NondeterministicTrie.py:309-327 | the node's translations whose path is fully costed, with the summed cost, as the Rust lookup gives them |
| NondeterministicTriePy.NondeterministicTrie.GetTranslationsAndCosts | plover_hatchery/lib/trie/NondeterministicTrie.py:330-333 | the results of every path in turn |
| NondeterministicTriePy.NondeterministicTrie.GetTranslationsAndMinCosts | plover_hatchery/lib/trie/NondeterministicTrie.py:336-344 | per translation, the first result with the strictly lowest cost |
| NondeterministicTriePy.NondeterministicTrie.TransitionHasKey | plover_hatchery/lib/trie/NondeterministicTrie.py:347-351 | None matches exactly the epsilon transitions; an unknown key is a KeyError; otherwise true exactly when the ids agree |
| NondeterministicTriePy.NondeterministicTrie.GetTransitionCost | plover_hatchery/lib/trie/NondeterministicTrie.py:570-578 | a KeyError exactly when no cost is stored for the transition and translation; otherwise the stored cost |
| NondeterministicTriePy.NondeterministicTrie.GetTransitionCosts | plover_hatchery/lib/trie/NondeterministicTrie.py:581-583 | all costs in order when every transition is costed, else the KeyError |
| NondeterministicTriePy.NondeterministicTrie.GetKey | plover_hatchery/lib/trie/NondeterministicTrie.py:586-587 | an IndexError exactly when the id is out of range; otherwise the key interned with that id |
| NondeterministicTriePy.NondeterministicTrie.GetKeyStrAsWritten | plover_hatchery/lib/trie/NondeterministicTrie.py:590-594 | None gives the mis-encoded epsilon label, which differs from "(ε)"; an id gives the string of its key, or an IndexError |
| NondeterministicTriePy.NondeterministicTrie.GetKeyStr | plover_hatchery/lib/trie/NondeterministicTrie.py:590-594 | None gives "(ε)"; an id gives the string of its key, or an IndexError |
| DeterministicTrie.Empty | plover_hatchery/lib/trie/Trie.py:11-14 | a new trie is well formed and holds only the root |
| DeterministicTrie.KeyId | plover_hatchery/lib/trie/Trie.py:59-65 | interning a key leaves nodes and translations alone; a known key keeps its id and a new key gets the next, unused id |
| DeterministicTrie.DstElseCreate | plover_hatchery/lib/trie/Trie.py:16-27 | the trie stays well formed, only grows, keeps its translations, and the destination is an existing node |
| DeterministicTrie.DstElseCreateIdempotent | plover_hatchery/lib/trie/Trie.py:16-27 | creating the same transition twice is creating it once |
| DeterministicTrie.DstElseCreateNew | plover_hatchery/lib/trie/Trie.py:23-25 | a missing transition leads to a new node appended at the end |
| DeterministicTrie.DstElseCreateExisting | plover_hatchery/lib/trie/Trie.py:19-21 | an existing transition is returned and nothing changes |
| DeterministicTrie.DstElseCreateChain | plover_hatchery/lib/trie/Trie.py:29-33 | creating a chain keeps the trie well formed, only grows it, and ends at an existing node |
| DeterministicTrie.GetDstChain | plover_hatchery/lib/trie/Trie.py:42-48 | a found chain ends at an existing node |
| DeterministicTrie.GetDstChainGrows | plover_hatchery/lib/trie/Trie.py:42-48 | a chain found in a trie is found at the same node after the trie grows |
| DeterministicTrie.CreateThenGetChain | plover_hatchery/lib/trie/Trie.py:29-48 | after creating a chain, looking it up finds the node the creation returned |
| DeterministicTrie.CreateThenGet | plover_hatchery/lib/trie/Trie.py:16-40 | after creating a transition, looking it up finds the node the creation returned |
| DeterministicTrie.GetDstGrows | plover_hatchery/lib/trie/Trie.py:35-40 | a transition found in a trie is found unchanged after the trie grows |
| DeterministicTrie.GetDstChainSnoc | plover_hatchery/lib/trie/Trie.py:42-48 | looking up a chain with one more key is looking up the chain and then that key |
| DeterministicTrie.Translated | plover_hatchery/lib/trie/Trie.py:50-51 | setting a translation changes no transition and adds the node to the translated nodes |
| DeterministicTrie.TranslationOf | plover_hatchery/lib/trie/Trie.py:53-54 | a translation is found exactly for translated nodes |
| DeterministicTrie.SetThenGetTranslation | plover_hatchery/lib/trie/Trie.py:50-54 | a set translation is read back, and other nodes' translations are unchanged |
| DeterministicTrie.Freeze | plover_hatchery/lib/trie/Trie.py:56-57 | the frozen data holds a copy of the trie's translations and keys as they are when it is frozen |
| DeterministicTrie.FreezeGetDst | plover_hatchery/lib/trie/Trie.py:100-105 | the frozen trie finds the same transitions, and none from a node that does not exist |
| DeterministicTrie.FreezeGetDstChain | plover_hatchery/lib/trie/Trie.py:107-113 | the frozen trie finds the same chains |
| DeterministicTrie.Trie.constructor | plover_hatchery/lib/trie/Trie.py:11-14 | the new trie is the empty one |
| DeterministicTrie.Trie.GetKeyId | plover_hatchery/lib/trie/Trie.py:59-65 | the new state and id are those of `KeyId` |
| DeterministicTrie.Trie.GetDstNodeElseCreate | plover_hatchery/lib/trie/Trie.py:16-27 | the new state and node are those of `DstElseCreate` |
| DeterministicTrie.Trie.GetDstNodeElseCreateChain | plover_hatchery/lib/trie/Trie.py:29-33 | the new state and node are those of `DstElseCreateChain` |
| DeterministicTrie.Trie.GetDstNode | plover_hatchery/lib/trie/Trie.py:35-40 | the destination of `GetDst` |
| DeterministicTrie.Trie.GetDstNodeChain | plover_hatchery/lib/trie/Trie.py:42-48 | the loop finds the destination of `GetDstChain` |
| DeterministicTrie.Trie.SetTranslation | plover_hatchery/lib/trie/Trie.py:50-51 | the new state is that of `Translated` |
| DeterministicTrie.Trie.GetTranslation | plover_hatchery/lib/trie/Trie.py:53-54 | the translation of `TranslationOf` |
| DeterministicTrie.Trie.Frozen | plover_hatchery/lib/trie/Trie.py:56-57 | a fresh read-only trie over a copy of the trie's data, equal to `Freeze` of it (the source shares the dicts instead) |
| DeterministicTrie.ReadonlyTrie.constructor | plover_hatchery/lib/trie/Trie.py:91-98 | the transitions are flattened into a map keyed by (node, key id) |
| DeterministicTrie.ReadonlyTrie.GetDstNode | plover_hatchery/lib/trie/Trie.py:100-105 | the destination looked up in the flat map |
| DeterministicTrie.ReadonlyTrie.GetDstNodeChain | plover_hatchery/lib/trie/Trie.py:107-113 | the loop finds the chain's destination in the flat map |
| KeyIds.EmptyTable | plover_hatchery/lib/trie/KeyIdManager.py:5-7 | a new table is consistent and holds no key |
| KeyIds.Intern | plover_hatchery/lib/trie/KeyIdManager.py:9-19 | None gives None and changes nothing; a known key keeps its id and changes nothing; a new key gets the next id and is appended to the list; afterwards the key maps to the id and back |
| KeyIds.InternIdempotent | plover_hatchery/lib/trie/KeyIdManager.py:13-14 | interning a key a second time returns the same id and changes nothing |
| KeyIds.InternAll | plover_hatchery/lib/trie/KeyIdManager.py:31-32 | one id per key, and the table stays consistent |
| KeyIds.InternAllProps | plover_hatchery/lib/trie/KeyIdManager.py:31-32 | earlier ids are kept, and each result is the id of its key in the final table |
| KeyIds.InternAllSnoc | plover_hatchery/lib/trie/KeyIdManager.py:31-32 | interning one more key is interning the others and then that key |
| KeyIds.KeyIdManager.constructor | plover_hatchery/lib/trie/KeyIdManager.py:5-7 | the new manager has no keys |
| KeyIds.KeyIdManager.GetKeyIdElseCreate | plover_hatchery/lib/trie/KeyIdManager.py:9-19 | the new table and id are those of `Intern` |
| KeyIds.KeyIdManager.GetKey | plover_hatchery/lib/trie/KeyIdManager.py:22-23 | the key listed under an id maps back to that id |
| KeyIds.KeyIdManager.GetKeyStr | plover_hatchery/lib/trie/KeyIdManager.py:26-30 | None gives "(ε)"; an id gives the string of the key interned under it |
| KeyIds.KeyIdManager.GetKeyIdsElseCreate | plover_hatchery/lib/trie/KeyIdManager.py:31-32 | the new table is that of `InternAll`, and each id is its key's interned id |
| TransitionFlags.Flagged | plover_hatchery_lib_rs/src/trie/transition_flag_manager.rs:16-21 | flagging adds the transition to the flagged ones |
| TransitionFlags.FlagThenGet | plover_hatchery_lib_rs/src/trie/transition_flag_manager.rs:16-21 | the flag is appended to that transition's flags, and no other transition's flags change |
| TransitionFlags.FlagAllThenGet | plover_hatchery_lib_rs/src/trie/transition_flag_manager.rs:16-21 | flagging in turn appends all the flags in order |
| TransitionFlags.TransitionFlagManager.constructor | plover_hatchery_lib_rs/src/trie/transition_flag_manager.rs:25-31 | a new manager has no flag types and no flagged transitions |
| TransitionFlags.TransitionFlagManager.NewFlag | plover_hatchery_lib_rs/src/trie/transition_flag_manager.rs:33-37 | the label is appended to the flag types and its index is returned, so `GetLabel` of that index reads the label back; every earlier label is unchanged |
| TransitionFlags.TransitionFlagManager.FlagTransition | plover_hatchery_lib_rs/src/trie/transition_flag_manager.rs:16-21 | the new mappings are those of `Flagged`: `GetFlags` of the flagged pair reads its old flags followed by the new one, and every other pair reads as before |
| TransitionFlags.TransitionFlagManager.GetLabel | plover_hatchery_lib_rs/src/trie/transition_flag_manager.rs:44-46 | the label declared for that flag index |
| Text.ParseU8 | plover_hatchery_lib_rs/src/defs/parse/parse.rs:124-135 | a decimal numeral is read as a value below 256; a string with a letter in it is an error |
| Text.DecimalRoundTrip | plover_hatchery_lib_rs/src/defs/def_items/keysymbol.rs:20-26 | the decimal numeral printed for a number reads back as that number |
| Text.ParseU8Decimal | plover_hatchery_lib_rs/src/defs/parse/parse.rs:124-135 | the printed numeral of any u8 value parses back to it |
| Text.SplitJoin | plover_hatchery/lib/alignment/match_sophemes.py:17 | splitting on a character and joining with it again gives the string back |
| DefItems.BaseSymbolOf | plover_hatchery_lib_rs/src/defs/def_items/keysymbol.rs:47-51 | the base symbol drops brackets and digits and keeps every other character in order |
| DefItems.BaseSymbolOfAppend | plover_hatchery_lib_rs/src/defs/def_items/keysymbol.rs:47-51 | the base symbol of a concatenation is the concatenation of base symbols |
| DefItems.BaseSymbolOfClean | plover_hatchery_lib_rs/src/defs/def_items/keysymbol.rs:47-51 | a symbol without brackets or digits is its own base symbol |
| DefItems.BaseSymbolOfIdempotent | plover_hatchery_lib_rs/src/defs/def_items/keysymbol.rs:47-51 | taking the base symbol twice is taking it once |
| DefItems.BaseSymbolIgnoresDecoration | plover_hatchery_lib_rs/src/defs/def_items/keysymbol.rs:47-51 | brackets around a symbol and a digit after it do not change its base symbol |
| DefItems.NewKeysymbol | plover_hatchery_lib_rs/src/defs/def_items/keysymbol.rs:46-56 | the keysymbol keeps its symbol, stress and optionality, and derives its base symbol |
| DefItems.StressMarker | plover_hatchery_lib_rs/src/defs/def_items/keysymbol.rs:20-26 | no stress prints nothing; a stress prints "!" and a numeral that reads back as the stress |
| DefItems.KeysymbolString | plover_hatchery_lib_rs/src/defs/def_items/keysymbol.rs:30-40 | the symbol comes first, and a trailing "?" appears exactly for an optional keysymbol |
| DefItems.KeysymbolStringExamples | plover_hatchery_lib_rs/src/defs/def_items/keysymbol.rs:215-237 | "a", "ee!1", "@@r?" and "i!3?" for the four test keysymbols |
| DefItems.OptionsString | plover_hatchery_lib_rs/src/defs/def_items/keysymbol.rs:176-206 | a group of several keysymbols or options is printed in parentheses |
| DefItems.OptionsSingletons | plover_hatchery_lib_rs/src/defs/def_items/keysymbol.rs:176-206 | a one-element group prints like its element, and an empty group prints nothing |
| DefItems.AllOptional | plover_hatchery_lib_rs/src/defs/def_items/sopheme.rs:24-28 | true exactly when every keysymbol is optional |
| DefItems.CanBeSilent | plover_hatchery_lib_rs/src/defs/def_items/sopheme.rs:24-28 | a sopheme can be silent exactly when all its keysymbols are optional, so always when it has none |
| DefItems.SophemeString | plover_hatchery_lib_rs/src/defs/def_items/sopheme.rs:30-41 | the characters, then ".", then the keysymbols separated by spaces, in parentheses when there are more than one |
| DefItems.TransclusionString | plover_hatchery_lib_rs/src/defs/def_items/transclusion.rs:11-21 | the target in braces, followed by the stress marker exactly when the stress is positive |
| DefItems.TransclusionStringExamples | plover_hatchery_lib_rs/src/defs/def_items/def.rs:66-74 | "{amphi}!1" and "{vern}" for the test transclusions |
| DefItems.GetIfSopheme | plover_hatchery_lib_rs/src/defs/def_items/entity.rs:45-53 | the sopheme of a sopheme entity, and none exactly for a transclusion |
| DefItems.EntityString | plover_hatchery_lib_rs/src/defs/def_items/entity.rs:55-61 | never empty, and a transclusion starts with "{" |
| DefItems.DefString | plover_hatchery_lib_rs/src/defs/def_items/def.rs:37-47 | the variable name, " = ", then the entities joined by spaces |
| DefItems.DefStringPair | plover_hatchery_lib_rs/src/defs/def_items/def.rs:37-47 | a two-entity definition prints both entities separated by one space |
| DefItems.DefStringExample | plover_hatchery_lib_rs/src/defs/def_items/def.rs:66-74 | the test definition prints as "amphivern = {amphi}!1 {vern}!2" |
| Lex.ClassOf | plover_hatchery_lib_rs/src/defs/parse/lex.rs:62-70 | no character classifies as the start state, and exactly the space is whitespace |
| Lex.StepState | plover_hatchery_lib_rs/src/defs/parse/lex.rs:34-51 | the lexer always moves to the target class; a character of the current class, other than a symbol, extends the token and emits nothing; otherwise it starts a new token, and the finished token is emitted exactly when the lexer had left the start state |
| Lex.LexSophemeSequence | plover_hatchery_lib_rs/src/defs/parse/lex.rs:53-77 | lexing yields at least one token |
| Lex.LexConcatenates | plover_hatchery_lib_rs/src/defs/parse/lex.rs:34-77 | the token values concatenate back to the input |
| Lex.LexShape | plover_hatchery_lib_rs/src/defs/parse/lex.rs:27-77 | the empty input yields one empty start-state token; otherwise the tokens are maximal runs, each symbol alone, and none is in the start state |
| Lex.LexOfValues | plover_hatchery_lib_rs/src/defs/parse/lex.rs:34-77 | lexing the concatenation of any such run of tokens gives those tokens back |
| Lex.Lexer.constructor | plover_hatchery_lib_rs/src/defs/parse/lex.rs:27-32 | a new lexer is in the start state with an empty token |
| Lex.Lexer.Step | plover_hatchery_lib_rs/src/defs/parse/lex.rs:34-51 | the new state and the emitted token are those of `StepState` |
| Lex.Lexer.StepEol | plover_hatchery_lib_rs/src/defs/parse/lex.rs:53-55 | the end of the line emits the token in progress |
| Lex.Lex | plover_hatchery_lib_rs/src/defs/parse/lex.rs:58-77 | the loop over the characters yields `LexSophemeSequence` |
| Parse.MovedBy | plover_hatchery_lib_rs/src/defs/parse/parse.rs:50-53 | moving forward adds the increment; moving back stops at 0 |
| Parse.ConsumeStress | plover_hatchery_lib_rs/src/defs/parse/parse.rs:116-139 | no "!" reads stress 0 and consumes nothing; "!" alone reads 1; "!" and a numeral read the numeral, failing exactly when it is not a u8 |
| Parse.ConsumeKeysymbol | plover_hatchery_lib_rs/src/defs/parse/parse.rs:141-167 | a non-identifier token is the "Expected a keysymbol identifier here" error; a keysymbol takes the identifier as its symbol, with its base symbol, and consumes at least that token |
| Parse.ConsumeKeysymbolSeq | plover_hatchery_lib_rs/src/defs/parse/parse.rs:169-183 | a parsed group ends on a ")" token |
| Parse.ConsumeSophemeOrtho | plover_hatchery_lib_rs/src/defs/parse/parse.rs:185-198 | an identifier is the spelling and is consumed; a "." means an empty spelling and is not consumed; anything else is an error |
| Parse.ConsumeSophemeDot | plover_hatchery_lib_rs/src/defs/parse/parse.rs:200-209 | succeeds exactly on a "." token and consumes it |
| Parse.ConsumeSophemePhono | plover_hatchery_lib_rs/src/defs/parse/parse.rs:211-238 | whitespace means no keysymbols; an identifier gives exactly one; the error cases are a bad keysymbol, a bad group or "Expected a sopheme phonology here" |
| Parse.ConsumeSopheme | plover_hatchery_lib_rs/src/defs/parse/parse.rs:240-246 | a parsed sopheme consumes at least one token |
| Parse.ConsumeTransclusion | plover_hatchery_lib_rs/src/defs/parse/parse.rs:248-280 | succeeds exactly on "{", an identifier, "}" and a valid stress, and the identifier is the target |
| Parse.ConsumeEntity | plover_hatchery_lib_rs/src/defs/parse/parse.rs:282-297 | a transclusion is tried first, then a sopheme; the error occurs exactly when both fail |
| Parse.ParseItemsFrom | plover_hatchery_lib_rs/src/defs/parse/parse.rs:307-324 | a successful parse from a position yields at least one item |
| Parse.ParseItems | plover_hatchery_lib_rs/src/defs/parse/parse.rs:299-327 | no tokens gives no items, and only no tokens does |
| Parse.EntityAdvancing | plover_hatchery_lib_rs/src/defs/parse/parse.rs:282-297 | a parsed entity always consumes at least one token and stays within the tokens |
| Parse.SophemeAdvancing | plover_hatchery_lib_rs/src/defs/parse/parse.rs:240-246 | a parsed sopheme always consumes at least one token and stays within the tokens |
| Parse.KeysymbolAdvancing | plover_hatchery_lib_rs/src/defs/parse/parse.rs:141-167 | a parsed keysymbol always consumes at least one token and stays within the tokens |
| Parse.ParseLine | plover_hatchery_lib_rs/src/defs/parse/parse.rs:299-327 | no tokens give no entities, and only no tokens do |
| Parse.ParseEntryDefinition | plover_hatchery_lib_rs/src/defs/parse/parse.rs:329-331 | a definition never parses to no entities, since lexing yields a token |
| Parse.ParseSophemeSeq | plover_hatchery_lib_rs/src/defs/parse/parse.rs:333-365 | a sopheme sequence never parses to no sophemes |
| Parse.ParseKeysymbolSeq | plover_hatchery_lib_rs/src/defs/parse/parse.rs:367-396 | a keysymbol sequence never parses to no keysymbols |
| Parse.ConsumeKeysymbolSeqLoop | plover_hatchery_lib_rs/src/defs/parse/parse.rs:169-183 | the loop computes `ConsumeKeysymbolSeq` |
| Parse.ParseItemsLoop | plover_hatchery_lib_rs/src/defs/parse/parse.rs:299-327 | the loop computes `ParseItems` |
| ParseRoundTrip.ValuesStress | plover_hatchery_lib_rs/src/defs/def_items/keysymbol.rs:20-26 | the tokens of a stress marker spell the marker |
| ParseRoundTrip.ValuesKeysymbol | plover_hatchery_lib_rs/src/defs/def_items/keysymbol.rs:30-40 | the tokens of a keysymbol spell its printed form |
| ParseRoundTrip.ValuesSopheme | plover_hatchery_lib_rs/src/defs/def_items/sopheme.rs:30-41 | the tokens of a sopheme spell its printed form |
| ParseRoundTrip.ValuesTransclusion | plover_hatchery_lib_rs/src/defs/def_items/transclusion.rs:11-21 | the tokens of a transclusion spell its printed form |
| ParseRoundTrip.ValuesLine | plover_hatchery_lib_rs/src/defs/def_items/entity.rs:55-61 | the tokens of a line of entities spell the entities' printed forms joined by spaces |
| ParseRoundTrip.ReadStress | plover_hatchery_lib_rs/src/defs/parse/parse.rs:116-139 | the parser reads a printed stress marker back as that stress, consuming its tokens |
| ParseRoundTrip.ReadKeysymbol | plover_hatchery_lib_rs/src/defs/parse/parse.rs:141-167 | the parser reads a printed keysymbol back as that keysymbol, consuming its tokens |
| ParseRoundTrip.ReadKeysymbolSeq | plover_hatchery_lib_rs/src/defs/parse/parse.rs:169-183 | the parser reads printed keysymbols followed by ")" back as those keysymbols |
| ParseRoundTrip.ReadPhono | plover_hatchery_lib_rs/src/defs/parse/parse.rs:211-238 | the parser reads a sopheme's printed keysymbols, bare or grouped, back as those keysymbols |
| ParseRoundTrip.ReadSopheme | plover_hatchery_lib_rs/src/defs/parse/parse.rs:240-246 | the parser reads a printed sopheme back as that sopheme |
| ParseRoundTrip.ReadTransclusion | plover_hatchery_lib_rs/src/defs/parse/parse.rs:248-280 | the parser reads a printed transclusion back as that transclusion |
| ParseRoundTrip.ReadEntity | plover_hatchery_lib_rs/src/defs/parse/parse.rs:282-297 | the parser reads a printed entity back as that entity |
| ParseRoundTrip.ReadItems | plover_hatchery_lib_rs/src/defs/parse/parse.rs:299-327 | a line of space-separated printed items is read back as those items |
| ParseRoundTrip.EntryDefinitionRoundTrip | plover_hatchery_lib_rs/src/defs/parse/parse.rs:403-415 | parsing the printed form of a non-empty line of well-formed entities gives the entities back |
| ParseRoundTrip.KeysymbolSeqRoundTrip | plover_hatchery_lib_rs/src/defs/parse/parse.rs:367-396 | parsing the printed form of a non-empty sequence of well-formed keysymbols gives the keysymbols back |
| ParseRoundTrip.EmptyLineRejected | plover_hatchery_lib_rs/src/defs/parse/parse.rs:282-297 | an empty entry definition is the error "Expected an entity here" |
| ParseExamples.SingleSopheme | plover_hatchery_lib_rs/src/defs/parse/parse.rs:417-420 | "a.@!2?" parses to one sopheme and prints back unchanged |
| ParseExamples.KeysymbolOptionsRejected | plover_hatchery_lib_rs/src/defs/parse/parse.rs:432-435 | a keysymbol line with a vertical-bar option ("e.ii" or "ee") is rejected with "Expected whitespace here": the parser has no case for the bar |
| KeysymbolPy.KeysymbolText | plover_hatchery/lib/sopheme/Keysymbol.py:68-75 | the symbol, then "!" and the stress in decimal exactly when the stress is positive, then "?" exactly when optional |
| KeysymbolPy.BaseSymbol | plover_hatchery/lib/sopheme/Keysymbol.py:87-90 | the base symbol holds no brackets, digits or capitals |
| KeysymbolPy.BaseSymbolAgrees | plover_hatchery/lib/sopheme/Keysymbol.py:87-90 | for a symbol without capitals the base symbol is the one the Rust keysymbol derives |
| KeysymbolPy.VowelConsonantComplement | plover_hatchery/lib/sopheme/Keysymbol.py:79-85 | a keysymbol is a consonant exactly when it is not a vowel |
| KeysymbolPy.MarkerStress | plover_hatchery/lib/sopheme/Keysymbol.py:55-59 | only the one-character markers "*", "~" and "-" give a stress, from 1 to 3 |
| KeysymbolPy.StripBrackets | plover_hatchery/lib/sopheme/Keysymbol.py:106 | the brackets are removed and nothing else; a symbol without brackets is unchanged |
| KeysymbolPy.ParseItemsProps | plover_hatchery/lib/sopheme/Keysymbol.py:94-110 | every parsed keysymbol is phonetic, has no brackets, and carries a stress from 0 to 3 |
| KeysymbolPy.ParseItemsKept | plover_hatchery/lib/sopheme/Keysymbol.py:94-110 | skipped items before a kept item do not stop its being kept |
| KeysymbolPy.ParseSeqLoop | plover_hatchery/lib/sopheme/Keysymbol.py:94-110 | the loop over the space-separated items computes `ParseSeq` |
| KeysymbolPy.MinNonzeroFromProps | plover_hatchery/lib/sopheme/Keysymbol.py:112-121 | the result is 0 exactly when every value is 0; otherwise it is one of the values and no larger than any nonzero value |
| KeysymbolPy.MaxStressValueProps | plover_hatchery/lib/sopheme/Keysymbol.py:112-121 | the "max stress" is 0 exactly when all stresses are 0, and otherwise the smallest nonzero stress, since stress 1 is the strongest |
| KeysymbolPy.MaxStressValueLoop | plover_hatchery/lib/sopheme/Keysymbol.py:112-121 | the loop computes `MaxStressValue` |
| KeysymbolPy.NormalizeStress | plover_hatchery/lib/sopheme/Keysymbol.py:123-138 | the returned stress is the strongest stress; without stress the keysymbols are unchanged |
| KeysymbolPy.NormalizeStressProps | plover_hatchery/lib/sopheme/Keysymbol.py:123-138 | normalising keeps the length and which keysymbols are stressed, and makes the strongest stress 1 |
| KeysymbolPy.NormalizeStressIdempotent | plover_hatchery/lib/sopheme/Keysymbol.py:123-138 | normalising a second time changes nothing |
| KeysymbolPy.NormalizeStressLoop | plover_hatchery/lib/sopheme/Keysymbol.py:123-138 | the loop computes `NormalizeStress` |
| LexPy.PyClassOf | plover_hatchery/lib/sopheme/parse/lex_sopheme_sequence.py:37-43 | a space is whitespace; alphanumerics and "-", "/", "@" are characters; anything else is a symbol |
| LexPy.PyStepState | plover_hatchery/lib/sopheme/parse/lex_sopheme_sequence.py:20-28 | the lexer moves to the target class; a character of the current class extends the token (symbols too, as written); otherwise the finished token is emitted unless the lexer was at the start |
| LexPy.StepWithoutMergeIsRust | plover_hatchery/lib/sopheme/parse/lex_sopheme_sequence.py:20-28 | with the symbol merging switched off, a step is the Rust lexer's step |
| LexPy.PyLexSophemeSequence | plover_hatchery/lib/sopheme/parse/lex_sopheme_sequence.py:30-44 | lexing yields at least one token |
| LexPy.PyLexConcatenates | plover_hatchery/lib/sopheme/parse/lex_sopheme_sequence.py:20-44 | the token values concatenate back to the input |
| LexPy.PyLexShape | plover_hatchery/lib/sopheme/parse/lex_sopheme_sequence.py:16-44 | the empty input yields one empty start-state token; otherwise the tokens are maximal runs of one class |
| LexPy.PyLexOfValues | plover_hatchery/lib/sopheme/parse/lex_sopheme_sequence.py:20-44 | lexing the concatenation of such a run of tokens gives the tokens back |
| LexPy.PyLexer.constructor | plover_hatchery/lib/sopheme/parse/lex_sopheme_sequence.py:16-18 | a new lexer is in the start state with an empty token |
| LexPy.PyLexer.Step | plover_hatchery/lib/sopheme/parse/lex_sopheme_sequence.py:20-28 | the new state and emitted token are those of `PyStepState` |
| LexPy.PyLexer.StepEol | plover_hatchery/lib/sopheme/parse/lex_sopheme_sequence.py:30-31 | the end of the line emits the token in progress |
| LexPy.PyLex | plover_hatchery/lib/sopheme/parse/lex_sopheme_sequence.py:34-44 | the loop over the characters yields `PyLexSophemeSequence` |
| ParsePy.PyConsumeStress | plover_hatchery/lib/sopheme/parse/parse_sopheme_sequence.py:73-84 | no "!" reads 0 and consumes nothing; "!" reads 1; "!" and a numeric token read its value and consume both |
| ParsePy.StressRoundTrip | plover_hatchery/lib/sopheme/parse/parse_sopheme_sequence.py:73-84 | a printed stress marker reads back as its stress |
| ParsePy.PyConsumeKeysymbol | plover_hatchery/lib/sopheme/parse/parse_sopheme_sequence.py:87-102 | fails exactly on a non-identifier token, with "Expected a keysymbol identifier here"; the identifier is the symbol, and a trailing "?" makes it optional |
| ParsePy.PyConsumeSophemeOrtho | plover_hatchery/lib/sopheme/parse/parse_sopheme_sequence.py:105-112 | an identifier is the spelling and is consumed; a "." means an empty spelling; anything else is "Expected a sopheme orthography here" |
| ParsePy.PyConsumeSophemeDot | plover_hatchery/lib/sopheme/parse/parse_sopheme_sequence.py:115-119 | succeeds exactly on a "." token and consumes it; otherwise "Expected a dot here" |
| ParsePy.PyConsumeGroup | plover_hatchery/lib/sopheme/parse/parse_sopheme_sequence.py:127-140 | a parsed group ends on ")"; a bad keysymbol inside is "Expected a keysymbol identifier here" |
| ParsePy.PyConsumeSophemePhono | plover_hatchery/lib/sopheme/parse/parse_sopheme_sequence.py:122-145 | an identifier gives one keysymbol; whitespace gives none; a "(" without a later ")" fails; more than one keysymbol only from a group |
| ParsePy.PyConsumeGroupLoop | plover_hatchery/lib/sopheme/parse/parse_sopheme_sequence.py:127-140 | the loop computes `PyConsumeGroup` |
| ParsePy.PyConsumeSopheme | plover_hatchery/lib/sopheme/parse/parse_sopheme_sequence.py:147-152 | a parsed sopheme consumes tokens up to and past its "." and takes its keysymbols from what follows |
| ParsePy.PyConsumeTransclusion | plover_hatchery/lib/sopheme/parse/parse_sopheme_sequence.py:155-174 | succeeds exactly on "{", an identifier and "}", with the stress that follows; anything but "{" first is "Expected a transclusion here" |
| ParsePy.PyConsumeEntity | plover_hatchery/lib/sopheme/parse/parse_sopheme_sequence.py:177-186 | succeeds exactly when a transclusion or a sopheme does, preferring the transclusion; otherwise "Expected an entity here" |
| ParsePy.PyEntityAdvancing | plover_hatchery/lib/sopheme/parse/parse_sopheme_sequence.py:177-186 | a parsed entity consumes at least one token and stays within the tokens |
| ParsePy.PySophemeAdvancing | plover_hatchery/lib/sopheme/parse/parse_sopheme_sequence.py:147-152 | a parsed sopheme consumes at least one token and stays within the tokens |
| ParsePy.PyParseLineFrom | plover_hatchery/lib/sopheme/parse/parse_sopheme_sequence.py:195-228 | without an error at least one item is produced |
| ParsePy.PyParseLine | plover_hatchery/lib/sopheme/parse/parse_sopheme_sequence.py:189-216 | no tokens produce nothing; otherwise an item or an error |
| ParsePy.PyLineAgreesWithRust | plover_hatchery/lib/sopheme/parse/parse_sopheme_sequence.py:189-228 | the generator yields the items the Rust line parser returns, and raises exactly when it fails, with the same message |
| ParsePy.PyLineItemsRead | plover_hatchery/lib/sopheme/parse/parse_sopheme_sequence.py:195-205 | every yielded item was read by the item parser at some position |
| ParsePy.CursorDone | plover_hatchery/lib/sopheme/parse/parse_sopheme_sequence.py:40-42 | the done check raises TypeError exactly for a generator source; for listed tokens it says whether the index is past them |
| ParsePy.PyParseLineOn | plover_hatchery/lib/sopheme/parse/parse_sopheme_sequence.py:189-216 | a generator source raises TypeError before anything is yielded; listed tokens give the outcome of `PyParseLine` |
| ParsePy.PyParseEntryDefinitionAsWritten | plover_hatchery/lib/sopheme/parse/parse_sopheme_sequence.py:208-209 | as written, every line raises TypeError, since the lexer's generator reaches the cursor's `len()` |
| ParsePy.PyParseSophemeSeqAsWritten | plover_hatchery/lib/sopheme/parse/parse_sopheme_sequence.py:212-231 | as written, every line raises TypeError, as for entry definitions |
| ParsePy.PyParseEntryDefinition | plover_hatchery/lib/sopheme/parse/parse_sopheme_sequence.py:208-209 | with the tokens listed as intended: the run of the line parser on them, which gives an error or at least one entity |
| ParsePy.PyParseSophemeSeq | plover_hatchery/lib/sopheme/parse/parse_sopheme_sequence.py:212-231 | with the tokens listed as intended: the run of the line parser on them, which gives an error or at least one sopheme |
| ParsePy.PyParseLineLoop | plover_hatchery/lib/sopheme/parse/parse_sopheme_sequence.py:189-205 | the loop computes `PyParseLine` |
| ParsePy.MergedTokensNoAdjacentSymbols | plover_hatchery/lib/sopheme/parse/lex_sopheme_sequence.py:20-28 | the merging lexer never yields two symbol tokens in a row |
| ParsePy.SophemeAtMostOneKeysymbol | plover_hatchery/lib/sopheme/parse/parse_sopheme_sequence.py:122-152 | when no two symbol tokens are adjacent, a sopheme has at most one keysymbol |
| ParsePy.MergedLexerNoGroups | plover_hatchery/lib/sopheme/parse/parse_sopheme_sequence.py:127-140 | with the lexer as written no parsed sopheme has a keysymbol group |
| ParsePyExamples.GroupTokensMerged | plover_hatchery/lib/sopheme/parse/lex_sopheme_sequence.py:20-28 | "x.(g z)" lexes with ".(" as one symbol token |
| ParsePyExamples.GroupTokensSplit | plover_hatchery/lib/sopheme/parse/lex_sopheme_sequence.py:20-28 | with symbols kept apart, "." and "(" are separate tokens |
| ParsePyExamples.GroupRejectedWhenMerged | plover_hatchery/lib/sopheme/parse/parse_sopheme_sequence.py:115-119 | with the tokens listed and symbol runs merged as the lexer is written, "x.(g z)" fails with "Expected a dot here" as a sopheme line and "Expected an entity here" as an entry |
| ParsePyExamples.GroupReadWhenSplit | plover_hatchery/lib/sopheme/parse/parse_sopheme_sequence.py:122-152 | with symbols kept apart, "x.(g z)" is the sopheme x with keysymbols g and z |
| ParsePyExamples.TransclusionStressWhenMerged | plover_hatchery/lib/sopheme/parse/parse_sopheme_sequence.py:155-186 | with the tokens listed and symbol runs merged, "{v}!2" fails with "Expected an entity here" |
| ParsePyExamples.TransclusionTokensSplit | plover_hatchery/lib/sopheme/parse/lex_sopheme_sequence.py:20-28 | with symbols kept apart, "{v}!2" lexes as "{", "v", "}", "!", "2" |
| ParsePyExamples.TransclusionStressWhenSplit | plover_hatchery/lib/sopheme/parse/parse_sopheme_sequence.py:155-174 | with symbols kept apart, "{v}!2" is a transclusion of v with stress 2 |
| ParsePyExamples.SingleSopheme | plover_hatchery/lib/sopheme/parse/parse_sopheme_sequence__test.py:1-15 | with the tokens listed, "a.@!2?" parses to the sopheme a with the optional keysymbol @ of stress 2, as the unit test expects |
| ParsePyExamples.SingleSophemeAsWritten | plover_hatchery/lib/sopheme/parse/parse_sopheme_sequence__test.py:1-15 | as written, running the parser on the unit test's line raises TypeError instead of yielding the expected sopheme |
| OrthoParse.LexSeqShape | plover_hatchery/lib/sopheme/parse_orthokeysymbol.py:18-48 | the token values concatenate back to the input; the empty input yields one empty start token; otherwise the tokens are maximal runs |
| OrthoParse.PyInt | plover_hatchery/lib/sopheme/parse_orthokeysymbol.py:249 | a value only for a non-empty string, and none for a string with a letter |
| OrthoParse.PyIntDecimal | plover_hatchery/lib/sopheme/parse_orthokeysymbol.py:249 | a decimal numeral, signed or not, reads back as its value |
| OrthoParse.CompleteSophemeOf | plover_hatchery/lib/sopheme/parse_orthokeysymbol.py:81-90 | an AssertionError exactly without an active sopheme; otherwise the sopheme of the collected characters and keysymbols is yielded and the sopheme fields reset, nothing else changing |
| OrthoParse.CompleteKeysymbolOf | plover_hatchery/lib/sopheme/parse_orthokeysymbol.py:93-99 | an AssertionError exactly without an active keysymbol; otherwise the keysymbol is appended to the sopheme's keysymbols, nothing else changing |
| OrthoParse.Next | plover_hatchery/lib/sopheme/parse_orthokeysymbol.py:102-121 | after a sopheme whitespace is skipped and a symbol other than "." is a ValueError; parentheses nest only through "(" after a dot and ")"; a stress value must be from 1 to 3; a sopheme is yielded only on whitespace; as written the states after a keysymbol, an optional marker and a closed group absorb every token |
| OrthoParse.AtEol | plover_hatchery/lib/sopheme/parse_orthokeysymbol.py:287-295 | a ValueError exactly with an open parenthesis; otherwise the active keysymbol and sopheme are completed and the sopheme yielded |
| OrthoParse.AbsorbingAsWritten | plover_hatchery/lib/sopheme/parse_orthokeysymbol.py:102-121 | as written, once a keysymbol is done no later token has any effect |
| OrthoParse.FeedStressInRange | plover_hatchery/lib/sopheme/parse_orthokeysymbol.py:245-253 | every keysymbol read carries a stress from 0 to 3 |
| OrthoParse.ParseSeqStressInRange | plover_hatchery/lib/sopheme/parse_orthokeysymbol.py:245-253 | every keysymbol parse_seq yields carries a stress from 0 to 3 |
| OrthoParse.EmptyLineRaises | plover_hatchery/lib/sopheme/parse_orthokeysymbol.py:124-144 | the empty line fails with a TypeError |
| OrthoParse.OrthoParser.constructor | plover_hatchery/lib/sopheme/parse_orthokeysymbol.py:66-78 | the parser starts in the start-sopheme state with nothing collected |
| OrthoParse.OrthoParser.CompleteSopheme | plover_hatchery/lib/sopheme/parse_orthokeysymbol.py:81-90 | the new fields, yielded sopheme and error are those of `CompleteSophemeOf` |
| OrthoParse.OrthoParser.CompleteKeysymbol | plover_hatchery/lib/sopheme/parse_orthokeysymbol.py:93-99 | the new fields and error are those of `CompleteKeysymbolOf` |
| OrthoParse.OrthoParser.ConsumeStartSopheme | plover_hatchery/lib/sopheme/parse_orthokeysymbol.py:124-144 | the new fields and error are those of the start-sopheme step |
| OrthoParse.OrthoParser.ConsumeDoneOrtho | plover_hatchery/lib/sopheme/parse_orthokeysymbol.py:147-167 | the new fields, yield and error are those of the after-spelling step |
| OrthoParse.OrthoParser.ConsumeDoneDot | plover_hatchery/lib/sopheme/parse_orthokeysymbol.py:170-192 | the new fields, yield and error are those of the after-dot step |
| OrthoParse.OrthoParser.ConsumeGroupStart | plover_hatchery/lib/sopheme/parse_orthokeysymbol.py:195-217 | the new fields and error are those of the group-start step |
| OrthoParse.OrthoParser.ConsumeKeysymbolChars | plover_hatchery/lib/sopheme/parse_orthokeysymbol.py:220-242 | the new fields, yield and error are those of the after-keysymbol step |
| OrthoParse.OrthoParser.ConsumeStressMarker | plover_hatchery/lib/sopheme/parse_orthokeysymbol.py:245-253 | the new fields and error are those of the stress-marker step |
| OrthoParse.OrthoParser.ConsumeStressValue | plover_hatchery/lib/sopheme/parse_orthokeysymbol.py:255-275 | the new fields, yield and error are those of the stress-value step |
| OrthoParse.OrthoParser.ConsumeDonePhono | plover_hatchery/lib/sopheme/parse_orthokeysymbol.py:277-285 | the new fields, yield and error are those of the after-group step |
| OrthoParse.OrthoParser.Consume | plover_hatchery/lib/sopheme/parse_orthokeysymbol.py:102-121 | the new fields, yield and error are those of `Next` |
| OrthoParse.OrthoParser.ConsumeEol | plover_hatchery/lib/sopheme/parse_orthokeysymbol.py:287-295 | the new fields, yield and error are those of `AtEol` |
| OrthoParse.ParseSeqLoop | plover_hatchery/lib/sopheme/parse_orthokeysymbol.py:299-304 | the loop over the tokens computes `ParseSeq` |
| OrthoParseExamples.TwoSophemesTokens | plover_hatchery/lib/sopheme/parse_orthokeysymbol.py:18-48 | "a.b c.d" lexes to the seven expected tokens |
| OrthoParseExamples.TwoSophemesAsWritten | plover_hatchery/lib/sopheme/parse_orthokeysymbol.py:220-242 | as written, "a.b c.d" yields only the sopheme a.b |
| OrthoParseExamples.TwoSophemesCorrected | plover_hatchery/lib/sopheme/parse_orthokeysymbol.py:220-242 | with the missing whitespace case, "a.b c.d" yields a.b and c.d |
| OrthoParseExamples.ClosedPhonoTokens | plover_hatchery/lib/sopheme/parse_orthokeysymbol.py:18-48 | "a.b) c.d" lexes to the expected tokens |
| OrthoParseExamples.ClosedPhonoAsWritten | plover_hatchery/lib/sopheme/parse_orthokeysymbol.py:277-285 | as written, "a.b) c.d" yields only the sopheme a.b |
| OrthoParseExamples.ClosedPhonoCorrected | plover_hatchery/lib/sopheme/parse_orthokeysymbol.py:277-285 | with the handler's yield passed on, "a.b) c.d" yields a.b and c.d |
| Defs.EntitiesOf | plover_hatchery_lib_rs/src/defs/def_items/rawable.rs:30-36 | entities exactly when every rawable is a plain entity, and then the entities they wrap |
| Defs.DefFrom | plover_hatchery_lib_rs/src/defs/def.rs:21-28 | the definition keeps the name and wraps exactly the sequence's entities |
| Defs.EmptyDef | plover_hatchery_lib_rs/src/defs/def.rs:42-47 | an empty definition with the name has no child at any index |
| Defs.DefFromGet | plover_hatchery_lib_rs/src/defs/def.rs:21-33 | the children of a definition built from a sequence are its entities, in order |
| Defs.LookupDef | plover_hatchery_lib_rs/src/defs/dict/mod.rs:26-29 | a definition exactly for a defined name, named after it and wrapping its entities |
| Defs.DefDict.constructor | plover_hatchery_lib_rs/src/defs/dict/mod.rs:15-19 | a new dictionary has no entries |
| Defs.DefDict.Add | plover_hatchery_lib_rs/src/defs/dict/mod.rs:22-24 | the name now maps to the sequence, replacing any earlier one, and no other entry changes |
| Defs.DefDict.GetDef | plover_hatchery_lib_rs/src/defs/dict/mod.rs:26-29 | a definition exactly for a defined name, named after it and wrapping its entities |
| DefView.EntityItem | plover_hatchery_lib_rs/src/defs/view/mod.rs:239-259 | an entity becomes a sopheme item or the transcluded sequence; "entry not found" exactly for a transclusion of an undefined name |
| DefView.ItemChild | plover_hatchery_lib_rs/src/defs/view/mod.rs:234-276 | a child exactly for an index below the item's child count; a sopheme's children are its keysymbols; the only error is "entry not found" |
| DefView.ReadPath | plover_hatchery_lib_rs/src/defs/view/mod.rs:141-153 | the empty path reads the item itself; the only error is "entry not found" |
| DefView.ReadPathAppend | plover_hatchery_lib_rs/src/defs/view/mod.rs:141-153 | reading a path in two parts is reading the first part and then the second from where it ends |
| DefView.Read | plover_hatchery_lib_rs/src/defs/view/mod.rs:141-153 | the loop over the indexes computes `ReadPath` from the root definition |
| DefView.CollectEntity | plover_hatchery_lib_rs/src/defs/view/mod.rs:80-98 | only a transclusion fails; a transclusion of a name being visited is "circular dependency"; the errors are "circular dependency" and "entry is not defined" |
| DefView.CollectEntities | plover_hatchery_lib_rs/src/defs/view/mod.rs:110-120 | the only errors are "circular dependency" and "entry is not defined" |
| DefView.CollectEntitiesAppend | plover_hatchery_lib_rs/src/defs/view/mod.rs:113-115 | collecting two runs of entities is collecting the first and then, if it succeeds, the second |
| DefView.CollectPlainEntities | plover_hatchery_lib_rs/src/defs/view/mod.rs:80-83 | entities without transclusions collect to their sophemes in order, whatever has been visited |
| DefView.CollectOne | plover_hatchery_lib_rs/src/defs/view/mod.rs:78-120 | a rawable fails only with the two collection errors, and a plain entity leaves the visited names as they were |
| DefView.CollectFrom | plover_hatchery_lib_rs/src/defs/view/mod.rs:113-115 | the remaining rawables fail only with the two collection errors |
| DefView.CollectSophemes | plover_hatchery_lib_rs/src/defs/view/mod.rs:77-128 | collection fails only with "circular dependency" or "entry is not defined" |
| DefView.CollectFromEntities | plover_hatchery_lib_rs/src/defs/view/mod.rs:110-120 | over a definition of plain entities, the depth-first walk agrees with collecting the entities and restores the visited names |
| DefView.EntryCollects | plover_hatchery_lib_rs/src/defs/view/mod.rs:71-128 | collecting a dictionary entry is collecting its entities with the entry's own name visited |
| DefView.Collector.VisitEntity | plover_hatchery_lib_rs/src/defs/view/mod.rs:80-98 | the sophemes and error are those of `CollectEntity`, and on success the visited names are restored |
| DefView.Collector.VisitEntry | plover_hatchery_lib_rs/src/defs/view/mod.rs:110-120 | the sophemes and error are those of collecting the entry's entities with its name visited, and on success the visited names are restored |
| DefView.Collector.Visit | plover_hatchery_lib_rs/src/defs/view/mod.rs:78-107 | appends the sophemes `CollectOne` gives, or reports its error |
| DefView.Collector.VisitDef | plover_hatchery_lib_rs/src/defs/view/mod.rs:110-120 | appends the sophemes of the nested definition, or reports the error |
| DefView.CollectSophemesDfs | plover_hatchery_lib_rs/src/defs/view/mod.rs:77-128 | the recursive walk with a mutable list and visited set computes `CollectSophemes` |
| DefView.AllCharsIsJoin | plover_hatchery_lib_rs/src/defs/view/mod.rs:130-138 | the translation text is the sophemes' spellings joined with nothing between them |
| DefView.Translation | plover_hatchery_lib_rs/src/defs/view/mod.rs:130-138 | a text exactly when collection succeeds, and then the concatenated spellings; otherwise a collection error |
| DefViewExamples.SelfTransclusionIsCircular | plover_hatchery_lib_rs/src/defs/view/mod.rs:85-88 | an entry that transcludes itself is a circular dependency |
| DefViewExamples.MutualTransclusionIsCircular | plover_hatchery_lib_rs/src/defs/view/mod.rs:85-97 | two entries that transclude each other are a circular dependency |
| DefViewExamples.MissingEntryIsUndefined | plover_hatchery_lib_rs/src/defs/view/mod.rs:90-96 | transcluding an undefined name is "entry is not defined" |
| DefViewExamples.SiblingRepeatsAllowed | plover_hatchery_lib_rs/src/defs/view/mod.rs:110-120 | transcluding the same entry twice in a row is no cycle, since the name is removed after its visit |
| DefViewExamples.RootNameIsVisited | plover_hatchery_lib_rs/src/defs/view/mod.rs:110-111 | the root definition's own name counts as visited |
| DefViewExamples.NestedNameClearsVisited | plover_hatchery_lib_rs/src/defs/view/mod.rs:110-117 | a nested definition with the same name as the root removes that name from the visited set on leaving |
| DefCursor.IncrDecrInverse | plover_hatchery_lib_rs/src/defs/cursor/iter.rs:52-76 | moving forward and then back returns to the same position, and moving back from a child and forward again too |
| DefCursor.AtEndPeek | plover_hatchery_lib_rs/src/defs/cursor/iter.rs:16-22 | at the end a child is seen exactly when there is one, and one step further nothing is |
| DefCursor.CreateChildAtStart | plover_hatchery_lib_rs/src/defs/cursor/iter.rs:24-29 | a cursor over the current child, at its start, exactly when a child is seen; its error is passed on |
| DefCursor.CreateChildAtEnd | plover_hatchery_lib_rs/src/defs/cursor/iter.rs:31-36 | a cursor over the current child, at its end, exactly when a child is seen; its error is passed on |
| DefCursor.ChildrenCursor.NewAtStart | plover_hatchery_lib_rs/src/defs/cursor/iter.rs:9-14 | the new cursor's state is `AtStart` |
| DefCursor.ChildrenCursor.NewAtEnd | plover_hatchery_lib_rs/src/defs/cursor/iter.rs:16-22 | the new cursor's state is `AtEnd` |
| DefCursor.ChildrenCursor.Peek | plover_hatchery_lib_rs/src/defs/cursor/iter.rs:38-40 | the child `PeekState` gives |
| DefCursor.ChildrenCursor.Incr | plover_hatchery_lib_rs/src/defs/cursor/iter.rs:52-62 | the index moves as `IncrIndex` says |
| DefCursor.ChildrenCursor.Decr | plover_hatchery_lib_rs/src/defs/cursor/iter.rs:64-76 | the index moves as `DecrIndex` says |
| DefCursor.ChildrenCursor.Next | plover_hatchery_lib_rs/src/defs/cursor/iter.rs:42-45 | moves forward, then returns the child now under the cursor |
| DefCursor.ChildrenCursor.Prev | plover_hatchery_lib_rs/src/defs/cursor/iter.rs:47-50 | moves back, then returns the child now under the cursor |
| DefCursor.StepOverSpec | plover_hatchery_lib_rs/src/defs/cursor/mod.rs:43-57 | the walk yields nothing exactly when the whole stack has been popped |
| DefCursor.StepOverShape | plover_hatchery_lib_rs/src/defs/cursor/mod.rs:43-57 | stepping over pops finished levels and advances the innermost remaining one, and the item yielded is the child under it |
| DefCursor.StepSpec | plover_hatchery_lib_rs/src/defs/cursor/mod.rs:28-41 | the walk yields nothing exactly when the whole stack has been popped |
| DefCursor.StepOverWellFormed | plover_hatchery_lib_rs/src/defs/cursor/mod.rs:43-57 | stepping over keeps each level a child of the level below it and keeps the root |
| DefCursor.StepWellFormed | plover_hatchery_lib_rs/src/defs/cursor/mod.rs:28-41 | stepping in and over keeps each level a child of the level below it and keeps the root |
| DefCursor.ReadIndexStack | plover_hatchery_lib_rs/src/defs/cursor/mod.rs:59-63 | reading the index stack from the root finds the item under the innermost cursor |
| DefCursor.StepLocatesItem | plover_hatchery_lib_rs/src/defs/cursor/mod.rs:28-63 | after a step that yields an item, the index stack is that item's path from the root |
| DefCursor.DefViewCursor.OfView | plover_hatchery_lib_rs/src/defs/cursor/mod.rs:18-26 | the new cursor's stack holds only the root at its start |
| DefCursor.DefViewCursor.StepOver | plover_hatchery_lib_rs/src/defs/cursor/mod.rs:43-57 | the loop's new stack and item are those of `StepOverSpec` |
| DefCursor.DefViewCursor.Step | plover_hatchery_lib_rs/src/defs/cursor/mod.rs:28-41 | the new stack and item are those of `StepSpec` |
| DefCursor.DefViewCursor.IndexStack | plover_hatchery_lib_rs/src/defs/cursor/mod.rs:59-63 | the index stack of `IndexStackOf` |
| DefCursor.FirstNoneLastNone | plover_hatchery_lib_rs/src/defs/view/mod.rs:165-200 | no first consonant means the last-consonant scan keeps what it had, and a scan that finds no last consonant finds no first one |
| DefCursor.LastSomeStaysSome | plover_hatchery_lib_rs/src/defs/view/mod.rs:183-200 | once a consonant has been found, the last-consonant scan never answers none |
| DefCursor.FirstConsonantIsConsonant | plover_hatchery_lib_rs/src/defs/view/mod.rs:165-181 | the location found reads, from the root, a consonant keysymbol |
| DefCursor.FirstConsonantLoc | plover_hatchery_lib_rs/src/defs/view/mod.rs:165-181 | the loop computes the first consonant's location from the root's start |
| DefCursor.LastConsonantLoc | plover_hatchery_lib_rs/src/defs/view/mod.rs:183-200 | the loop computes the last consonant's location from the root's start |
| DefinitionCursor.NextStepData | plover_hatchery_lib_rs/src/definition/iter.rs:59-80 | nothing with an empty stack or a lone childless root; In to child 0 of the tip when it has one; otherwise Over to the tip's next sibling when the parent has it; otherwise Out |
| DefinitionCursor.StepKeepsPath | plover_hatchery_lib_rs/src/definition/iter.rs:82-104 | a step keeps the root and keeps every level a child of the level below it |
| DefinitionCursor.PathReachesTip | plover_hatchery_lib_rs/src/definition/iter.rs:7-25 | reading the stack's indexes from the root finds the tip's item |
| DefinitionCursor.StepFollowsTree | plover_hatchery_lib_rs/src/definition/iter.rs:59-104 | after a step the stack's indexes still lead from the root to the tip, and stepping in moves to child 0 of the old tip |
| DefinitionCursor.OutReenters | plover_hatchery_lib_rs/src/definition/iter.rs:59-104 | as written, after stepping out of a first child the cursor steps In to that child again and then Out again, back to the same stack, so it never moves over |
| DefinitionCursor.NextStepDataFixed | plover_hatchery_lib_rs/src/definition/iter.rs:59-80 | as intended, right after a step out the cursor never steps in: it moves over to the tip's next sibling under the same parent, steps out further, or ends at the root |
| DefinitionCursor.SingleSophemeSteps | plover_hatchery_lib_rs/src/definition/iter.rs:59-104 | on the entry "a.a" the cursor as written steps In, In, Out and is back on the sopheme it then re-enters; as intended it steps In, In, Out, Out and ends |
| DefinitionCursor.StackCursor.New | plover_hatchery_lib_rs/src/definition/iter.rs:47-57 | the stack holds only the root, at index 0 |
| DefinitionCursor.StackCursor.Step | plover_hatchery_lib_rs/src/definition/iter.rs:82-104 | nothing and no change exactly when `NextStepData` gives nothing; otherwise its direction, with the child pushed, the tip replaced or the tip popped |
| DefinitionCursor.InitialCursor | plover_hatchery_lib_rs/src/definition/cursor/mod.rs:17-31 | "could not find transcluded value" exactly for a transclusion of an undefined name; a sopheme starts at keysymbol 0; a transclusion owns a definition of its target; a nested definition is referenced; definition cursors start at element 0 with no inner cursor |
| DefinitionCursor.CursorItemOf | plover_hatchery_lib_rs/src/definition/cursor/mod.rs:43-146 | a sopheme cursor points at its keysymbol, a definition cursor at its element, each exactly when the index is in range |
| DefinitionCursor.InnerOf | plover_hatchery_lib_rs/src/definition/cursor/mod.rs:51-57 | a sopheme cursor has no inner cursor; a definition cursor has the one it holds |
| DefinitionCursor.InnermostFollowsInner | plover_hatchery_lib_rs/src/definition/cursor/mod.rs:33-41 | the innermost cursor is the cursor itself when it has no inner one, otherwise the innermost of its inner cursor, which is shallower |
| DefinitionCursor.CurTipItem | plover_hatchery_lib_rs/src/definition/cursor/mod.rs:33-41 | the loop down the inner chain finds the item of the innermost cursor, and a keysymbol only from a sopheme cursor |
| DefinitionCursor.SophemeKeysymbolCursor.Initial | plover_hatchery_lib_rs/src/definition/cursor/mod.rs:137-142 | the cursor starts at keysymbol 0 of the sopheme |
| DefinitionCursor.SophemeKeysymbolCursor.CurKeysymbol | plover_hatchery_lib_rs/src/definition/cursor/mod.rs:144-146 | the keysymbol at the index, if any |
| DefinitionCursor.SophemeKeysymbolCursor.Next | plover_hatchery_lib_rs/src/definition/cursor/mod.rs:148-156 | on a keysymbol the index moves on by one; past the end "already at end" and no change |
| DefinitionCursor.DefRefStepCursor.Initial | plover_hatchery_lib_rs/src/definition/cursor/mod.rs:101-107 | the cursor starts at element 0 with no inner cursor |
| DefinitionCursor.DefRefStepCursor.CurEntity | plover_hatchery_lib_rs/src/definition/cursor/mod.rs:109-111 | the element at the index, if any |
| DefinitionCursor.DefRefStepCursor.StepIn | plover_hatchery_lib_rs/src/definition/cursor/mod.rs:113-127 | "already has an inner cursor" with an inner cursor; "not pointing to an entity" past the end; otherwise the inner cursor becomes the element's initial cursor, or its error is returned; the index never changes |
| DefinitionCursor.StepInMovesTip | plover_hatchery_lib_rs/src/definition/cursor/mod.rs:33-127 | after stepping in, the tip is the new inner cursor, pointing at a sopheme's first keysymbol or a nested definition's first element |
| PhonemeNav.FirstFrom | plover_hatchery/lib/sopheme/SophemeSeq.py:19-28 | the first phoneme position at or after sopheme `s`: keysymbol 0 of a sopheme with keysymbols, every sopheme skipped has none, and nothing only when no later sopheme has any |
| PhonemeNav.LastUpTo | plover_hatchery/lib/sopheme/SophemeSeq.py:31-40 | the last phoneme position at or before sopheme `s`: the last keysymbol of a sopheme with keysymbols, every sopheme skipped has none, and nothing only when no earlier sopheme has any |
| PhonemeNav.FirstIsEarliest | plover_hatchery/lib/sopheme/SophemeSeq.py:19-28 | the first phoneme is a valid position with no position before it in reading order, and there is none only when the sequence has no keysymbols |
| PhonemeNav.LastIsLatest | plover_hatchery/lib/sopheme/SophemeSeq.py:31-40 | the last phoneme is a valid position with no position after it, and there is none only when the sequence has no keysymbols |
| PhonemeNav.NextIsNearest | plover_hatchery/lib/sopheme/SophemeSeq.py:106-117 | `next` returns the nearest later position, with none between, and nothing exactly when no position follows |
| PhonemeNav.PrevIsNearest | plover_hatchery/lib/sopheme/SophemeSeq.py:92-103 | `prev` returns the nearest earlier position, with none between, and nothing exactly when no position precedes |
| PhonemeNav.NextPrevInverse | plover_hatchery/lib/sopheme/SophemeSeq.py:92-117 | `prev` undoes `next` and `next` undoes `prev` |
| PhonemeNav.FirstPhoneme | plover_hatchery/lib/sopheme/SophemeSeq.py:19-28 | the loop's result is the first phoneme position of the specification (also Definition.first_phoneme, Definition.py:19-28) |
| PhonemeNav.LastPhoneme | plover_hatchery/lib/sopheme/SophemeSeq.py:31-40 | the loop's result is the last phoneme position (also Definition.last_phoneme, Definition.py:39-48) |
| PhonemeNav.Next | plover_hatchery/lib/sopheme/SophemeSeq.py:106-117 | the loop's result is the next phoneme position of the specification (also Definition.py:121-132) |
| PhonemeNav.Prev | plover_hatchery/lib/sopheme/SophemeSeq.py:92-103 | the loop's result is the previous phoneme position (also Definition.py:107-118) |
| PhonemeNav.Phonemes | plover_hatchery/lib/sopheme/SophemeSeq.py:43-48 | lists valid positions in strictly increasing reading order and lists every valid position |
| PhonemeNav.NextOfClass | plover_hatchery/lib/sopheme/SophemeSeq.py:129-152 | `next_consonant`/`next_vowel`: a later position of the class sought with none of that class between, or nothing when no later position has the class |
| PhonemeNav.PrevOfClass | plover_hatchery/lib/sopheme/SophemeSeq.py:120-143 | `prev_consonant`/`prev_vowel`: an earlier position of the class sought with none of that class between, or nothing when no earlier position has the class |
| PhonemeNav.FirstConsonant | plover_hatchery/lib/sopheme/Definition.py:30-36 | the earliest consonant position with no consonant before it, or nothing when there is no consonant |
| PhonemeNav.Vowels | plover_hatchery/lib/sopheme/SophemeSeq.py:8-16 | the vowel list holds exactly the vowel positions, in strictly increasing reading order |
| PhonemeNav.AppearsBeforeFirstVowelAsWrittenWrong | plover_hatchery/lib/sopheme/SophemeSeq.py:81-88 | with the comparison as written, a consonant of the second sopheme counts as before a vowel at keysymbol 1 of the first sopheme, although it follows it |
| PhonemeNav.AppearsBeforeFollowsPhonemeOrder | plover_hatchery/lib/sopheme/SophemeSeq.py:81-88 | the corrected comparison holds between two listed phonemes exactly when the first is listed earlier, and implies the as-written comparison |
| PhonemeNav.VowelBoundsMeaning | plover_hatchery/lib/sopheme/SophemeSeq.py:155-165 | a position is before the first vowel exactly when it is before every vowel, and after the last vowel exactly when it is after every vowel (true when there is no vowel) |
| PhonemeNav.IsFirstPhoneme | plover_hatchery/lib/sopheme/SophemeSeq.py:168-169 | true exactly for the valid position with no earlier position |
| PhonemeNav.IsLastPhoneme | plover_hatchery/lib/sopheme/SophemeSeq.py:171-172 | true exactly for the valid position with no later position |
| PhonemeNav.IsLoneConsonant | plover_hatchery/lib/sopheme/SophemeSeq.py:175-187 | true exactly when the position is a consonant whose neighbouring phonemes, before and after, are not consonants |
| OutlineSoundIndexes.SoundAt | plover_hatchery/lib/pipes/OutlineSounds.py:26-33 | the sound at an index: the group's vowel at index `len(consonants)`, otherwise the consonant at that index (the final consonants for the last group) |
| OutlineSoundIndexes.VowelOfGroup | plover_hatchery/lib/pipes/OutlineSounds.py:100-101 | the vowel of a non-final group is the sound just after its consonants |
| OutlineSoundIndexes.SoundAtIsFlat | plover_hatchery/lib/pipes/OutlineSounds.py:26-33 | each (group, sound) index picks out its sound in the outline's flat reading-order list of sounds |
| OutlineSoundIndexes.FlatIndexOrder | plover_hatchery/lib/pipes/OutlineSounds.py:65-81 | index order between (group, sound) pairs is the order of their places in the flat list |
| OutlineSoundIndexes.IncrementIndex | plover_hatchery/lib/pipes/OutlineSounds.py:65-81 | `increment_index` moves to the index of the next sound in the flat list, and gives nothing exactly at the last sound |
| OutlineSoundIndexes.NextSound | plover_hatchery/lib/pipes/OutlineSounds.py:106-111 | `next_sound` is the next sound of the flat list, and nothing exactly at the last sound |
| OutlineSoundIndexes.IncrementConsonantIndex | plover_hatchery/lib/pipes/OutlineSounds.py:50-63 | the loop finds the nearest later consonant index, skipping vowels and empty groups, or nothing when no consonant follows (also state.py:51-64) |
| OutlineSoundIndexes.DecrementConsonantIndex | plover_hatchery/lib/pipes/OutlineSounds.py:35-48 | the loop finds the nearest earlier consonant index, or nothing when no consonant precedes (also state.py:36-49) |
| OutlineSoundIndexes.ConsonantAfter | plover_hatchery/lib/pipes/OutlineSounds.py:83-88 | the consonant at the nearest later consonant index, and nothing exactly when none follows (also state.py:84-89) |
| OutlineSoundIndexes.ConsonantBefore | plover_hatchery/lib/pipes/OutlineSounds.py:90-95 | the consonant at the nearest earlier consonant index, and nothing exactly when none precedes (also state.py:91-96) |
| EntryState.Elider.constructor | plover_hatchery/lib/pipes/Elider.py:6-8 | a new elider has no source nodes |
| EntryState.Elider.SetSrcNodes | plover_hatchery/lib/pipes/Elider.py:10-11 | replaces the source nodes and changes nothing else |
| EntryState.Elider.Clone | plover_hatchery/lib/pipes/Elider.py:25-27 | a fresh elider with the same source nodes |
| EntryState.EntryBuilderState.constructor | plover_hatchery/lib/pipes/state.py:107-144 | a new state holds the outline's sounds and the translation, empty node lists, node 0, three fresh separate eliders with no source nodes, and group and phoneme index -1 |
| EntryState.EntryBuilderState.CloneAsWritten | plover_hatchery/lib/pipes/state.py:136-140 | as written: a fresh state with the same plain fields and fresh copies of the left-squish and boundary eliders, but the very same right-squish elider |
| EntryState.CloneAsWrittenLeaksRightSquish | plover_hatchery/lib/pipes/state.py:136-140 | setting the right-squish nodes of the as-written clone changes the original state's right-squish nodes |
| EntryState.EntryBuilderState.Clone | plover_hatchery/lib/pipes/state.py:136-140 | corrected: a fresh state with the same plain fields and fresh copies of all three eliders, kept separate |
| EntryState.CloneIsIndependent | plover_hatchery/lib/pipes/state.py:136-140 | updating all three eliders of a corrected clone leaves the original state and its eliders unchanged |
| EntryState.EntryBuilderState.Consonant | plover_hatchery/lib/pipes/state.py:154-156 | the current index is a consonant index and the result is the sound there |
| EntryState.EntryBuilderState.NextConsonant | plover_hatchery/lib/pipes/state.py:158-160 | the consonant at the nearest later consonant index, and nothing exactly when none follows the current index |
| EntryState.EntryBuilderState.LastConsonant | plover_hatchery/lib/pipes/state.py:162-164 | the consonant at the nearest earlier consonant index, and nothing exactly when none precedes the current index |
| EntryState.EntryBuilderState.CanElidePrevVowelLeft | plover_hatchery/lib/pipes/state.py:170-171 | true exactly at the first consonant of a group after the first when the previous group has consonants |
| OutlineBuilder.WithDiphthongTransition | plover_hatchery/lib/lookup/get_sophemes.py:48-54 | the closed groups are kept; the open consonants change exactly when the last sound was a vowel whose phoneme has a transition, and then the transition consonant is the only open consonant |
| OutlineBuilder.AddVowelTo | plover_hatchery/lib/lookup/get_sophemes.py:61-65 | the open consonants, after the diphthong transition, close a group with the vowel; nothing is left open and the last sound is a vowel |
| OutlineBuilder.AddConsonantAppendsSound | plover_hatchery/lib/lookup/get_sophemes.py:57-58 | adding a consonant puts it after every sound built so far |
| OutlineBuilder.AddVowelAppendsSound | plover_hatchery/lib/lookup/get_sophemes.py:61-65 | adding a vowel puts the transition consonant, if any, and then the vowel after every sound built so far |
| OutlineBuilder.OutlineSoundsBuilder.constructor | plover_hatchery/lib/lookup/get_sophemes.py:37-40 | a new builder has no groups and no open consonants |
| OutlineBuilder.OutlineSoundsBuilder.AppendDiphthongTransition | plover_hatchery/lib/lookup/get_sophemes.py:48-54 | the builder's lists become those of the diphthong-transition specification |
| OutlineBuilder.OutlineSoundsBuilder.AddConsonant | plover_hatchery/lib/lookup/get_sophemes.py:57-58 | the builder's lists become those with the consonant added |
| OutlineBuilder.OutlineSoundsBuilder.AddVowel | plover_hatchery/lib/lookup/get_sophemes.py:61-65 | the builder's lists become those with the vowel added |
| OutlineBuilder.OutlineSoundsBuilder.BuildSounds | plover_hatchery/lib/lookup/get_sophemes.py:68-69 | the outline sounds built from the builder's lists |
| OutlineBuilder.OutlineStrokeStep | plover_hatchery/lib/lookup/get_sophemes.py:16-32 | a stroke gives nothing exactly when it has an asterisk part and fails exactly on an unknown vowel chord; otherwise the closed groups grow by one exactly when the stroke has vowel keys, and without a vowel the open consonants only grow |
| OutlineBuilder.OutlineNoneIffAsterisk | plover_hatchery/lib/lookup/get_sophemes.py:11-34 | when every vowel chord is known, an outline has no sounds exactly when one of its strokes has an asterisk part |
| OutlineBuilder.GetOutlinePhonemes | plover_hatchery/lib/lookup/get_sophemes.py:11-34 | the loop's result is the outline-sounds specification applied from an empty builder |
| OutlineBuilder.FirstVowelSubstroke | plover_hatchery/lib/lookup/get_sophemes.py:84-89 | the non-empty vowel keys of the first stroke that has any |
| OutlineBuilder.SophemeStep | plover_hatchery/lib/lookup/get_sophemes.py:75-100 | a blank steneme changes nothing; a step fails only on an unknown vowel chord of a steneme without a vowel phoneme; a non-blank steneme closes one group exactly when it has a vowel phoneme or vowel keys, and otherwise only adds open consonants |
| OutlineBuilder.WithoutBlanks | plover_hatchery/lib/lookup/get_sophemes.py:76-77 | keeps no blank steneme and is no longer than its input |
| OutlineBuilder.BlanksIgnored | plover_hatchery/lib/lookup/get_sophemes.py:76-77 | blank stenemes make no difference to the sounds built, wherever they stand |
| OutlineBuilder.AddSplitConsonants | plover_hatchery/lib/lookup/get_sophemes.py:98-100 | the builder's lists become those with the consonants split from every stroke added, each sourced from the steneme |
| OutlineBuilder.GetSophemePhonemes | plover_hatchery/lib/lookup/get_sophemes.py:72-102 | the loop's result is the steneme-sounds specification applied from an empty builder |
| TheoryService.InvertVowelChords | plover_hatchery/lib/theory_factory/service.py:82-86 | every chord of the table is a key, and each maps to the phoneme of the last table entry with that chord |
| TheoryService.Theory | plover_hatchery/lib/theory_factory/service.py:16-20 | a service exactly when the linker chord lies within the left bank, holding the spec, the consonant trie and the inverted vowel-chord table |
| TheoryService.LongestChordEnd | plover_hatchery/lib/theory_factory/service.py:62-74 | the last end index before `hi` at which a chord starting at `start` ends, with no chord ending later, or nothing when none ends |
| TheoryService.LongestMatchFirst | plover_hatchery/lib/theory_factory/service.py:55-78 | greedy longest match: the phonemes are those of the longest chord from the start, followed by the split of the keys after it |
| TheoryService.UnchordedStartSkipped | plover_hatchery/lib/theory_factory/service.py:55-78 | a key that starts no chord contributes nothing and the split resumes after it |
| TheoryService.LongestChordFrom | plover_hatchery/lib/theory_factory/service.py:56-74 | the inner loop finds the end of the longest chord from `start` and its phonemes, or stays at `start` with no phonemes |
| TheoryService.SplitKeys | plover_hatchery/lib/theory_factory/service.py:52-78 | the outer loop's result is the greedy split specification of the keys |
| TheoryService.SplitConsonantPhonemes | plover_hatchery/lib/theory_factory/service.py:51-78 | the greedy split of the stroke's keys in steno order |
| Alignment.MinCell | plover_hatchery/lib/alignment/alignment.py:192 | Python's `min` over the candidate cells picks one of them |
| Alignment.MinCellIsMinimal | plover_hatchery/lib/alignment/alignment.py:49-53 | when costs form a strict weak order, no candidate costs less than the one `min` picks |
| Alignment.SilentOnly | plover_hatchery/lib/alignment/alignment.py:165-167 | without a y increment, exactly the mapping options of y length 0 are kept, in their order |
| Alignment.PlansForOptions | plover_hatchery/lib/alignment/alignment.py:169-190 | every match considered for an x run starts at or before the current cell in both x and y |
| Alignment.PlansForXRuns | plover_hatchery/lib/alignment/alignment.py:154-167 | every match considered for the x runs ending at the current cell starts at or before that cell |
| Alignment.FindMatchPlans | plover_hatchery/lib/alignment/alignment.py:140-192 | `find_match` always has at least one candidate, and every candidate's parent is at or before the cell |
| Alignment.FindMatchPlansOk | plover_hatchery/lib/alignment/alignment.py:126-192 | the first candidate is the mismatch, whose parent is one step back along each incremented axis; every other candidate is a well-formed match, of the empty x run only when x is not incremented |
| Alignment.FindMatchIsMin | plover_hatchery/lib/alignment/alignment.py:140-192 | `find_match` succeeds exactly when all its candidates can be made, and then returns their minimum, the mismatch included |
| Alignment.FindMatchPicksCandidate | plover_hatchery/lib/alignment/alignment.py:140-192 | the cell `find_match` picks is the candidate made by one of its plans |
| Alignment.CellAtShape | plover_hatchery/lib/alignment/alignment.py:126-137 | the cell at (0, 0) is the initial cell; every other stored cell sits at its own position with a stored parent strictly before it, and a mismatch keeps its parent's unmatched-run start while a match starts a new run at its own position |
| Alignment.InteriorCellIsCheapest | plover_hatchery/lib/alignment/alignment.py:208-220 | an interior cell is one of its x-, y- or xy-increment candidates and, under a strict weak order of costs, none of them costs less |
| Alignment.FindMatch | plover_hatchery/lib/alignment/alignment.py:140-192 | over a matrix that agrees with the specification on every earlier cell, the method returns the specification's cell, or nothing where Python would raise IndexError |
| Alignment.FillFirstColumn | plover_hatchery/lib/alignment/alignment.py:199-201 | the first loop builds one cell per row, each the specification's cell, or fails only when some cell cannot be computed |
| Alignment.FillFirstRow | plover_hatchery/lib/alignment/alignment.py:202-205 | the second loop completes the first row with the specification's cells, or fails only when some cell cannot be computed |
| Alignment.InteriorCell | plover_hatchery/lib/alignment/alignment.py:210-220 | an interior cell computed from the matrix is the specification's cell |
| Alignment.FillRow | plover_hatchery/lib/alignment/alignment.py:208-220 | one pass of the inner loop completes row `x + 1` with the specification's cells, leaving later rows untouched |
| Alignment.FillMatrix | plover_hatchery/lib/alignment/alignment.py:195-220 | the matrix holds the specification's cell at every position, or some cell cannot be computed |
| Alignment.TraceStart | plover_hatchery/lib/alignment/alignment.py:235-241 | a match starts at its parent and a mismatch at its parent's unmatched-run start, a stored cell strictly before the cell |
| Alignment.TracebackTiles | plover_hatchery/lib/alignment/alignment.py:232-246 | the traceback spans tile the alignment: empty only at (0, 0), the first starts at (0, 0), each starts where the previous ended and moves forward, and the last ends at the cell |
| Alignment.Align | plover_hatchery/lib/alignment/alignment.py:115-246 | nothing exactly when some cell cannot be computed; otherwise the constructed matches of the traced-back spans of the last cell |
| Alignment.StoredCellMadeBy | plover_hatchery/lib/alignment/alignment.py:199-220 | every stored cell but the initial one is made by one plan of one `find_match` call for its position |
| Alignment.NoMappingsNoMatchPlans | plover_hatchery/lib/alignment/alignment.py:154-158 | without any mapping no x run yields a match |
| Alignment.NoMappingsFindMatch | plover_hatchery/lib/alignment/alignment.py:140-192 | without any mapping `find_match` returns the mismatch made from the cell one step back along each incremented axis |
| Alignment.NoMappingsMismatchOnly | plover_hatchery/lib/alignment/alignment.py:195-220 | without any mapping every cell can be computed, and every cell but the initial one is a mismatch whose unmatched run starts at (0, 0) |
| Alignment.NoMappingsOneSpan | plover_hatchery/lib/alignment/alignment.py:232-246 | without any mapping the alignment of non-empty input is one span from the initial cell to the last cell, with no match data |
| Alignment.AllCellsComputed | plover_hatchery/lib/alignment/alignment.py:176 | when the empty x run has no mapping, no candidate is its own parent, so every cell can be computed |
| Alignment.MatchOffered | plover_hatchery/lib/alignment/alignment.py:154-190 | every option of a mapped x run ending at the cell whose key matches the tail of y is one of `find_match`'s plans, made from the start of both runs |
| Alignment.MatchPlanIsCandidate | plover_hatchery/lib/alignment/alignment.py:169-190 | at an interior cell, the cell a match plan makes from its stored parent is one of the cell's candidates |
| MatchSophemes.CostOrder | plover_hatchery/lib/alignment/match_sophemes.py:266-269 | the cost tuples are ordered as Python orders named tuples: a strict weak order, indeed a total one |
| MatchSophemes.CostBounds | plover_hatchery/lib/alignment/match_sophemes.py:306-328 | every stored cell's cost counts at most i unmatched keysymbols, j unmatched letters and i + j chunks |
| MatchSophemes.TableOf | plover_hatchery/lib/alignment/match_sophemes.py:16-100 | the table's keys are exactly the space-split keysymbol strings of its entries, and no key is empty |
| MatchSophemes.KeysymbolsToCharsWith | plover_hatchery/lib/alignment/match_sophemes.py:279-338 | the keysymbol-to-letter service uses the sopheme costs, the tuple order and the given mapping lookups |
| MatchSophemes.KeysymbolsToCharsAsWritten | plover_hatchery/lib/alignment/match_sophemes.py:279-281 | as written the service has the sopheme costs and no key has a mapping, since the abstract `has_mapping` answers None |
| MatchSophemes.KeysymbolsToChars | plover_hatchery/lib/alignment/match_sophemes.py:279-338 | as intended a key has a mapping exactly when the table holds it, and its options are the table's spellings |
| MatchSophemes.ProcessTranscription | plover_hatchery/lib/alignment/match_sophemes.py:284-300 | the loop's keysymbols are those of the transcription parser, every stress is between 0 and 3, and the translation is kept |
| MatchSophemes.MatchKeysymbolsToChars | plover_hatchery/lib/alignment/match_sophemes.py:279-339 | the alignment under the grapheme table always exists, and the result is the sophemes constructed from its spans |
| MatchSophemes.AsWrittenOneSopheme | plover_hatchery/lib/alignment/match_sophemes.py:279-281 | as written any non-empty input aligns as one sopheme holding the whole translation and every keysymbol, with every keysymbol and letter unmatched |
| MatchSophemes.AsWrittenAllUnmatched | plover_hatchery/lib/alignment/match_sophemes.py:279-281 | as written the cell at (i, j) leaves all i keysymbols and j letters unmatched, in no chunk |
| MatchSophemes.CorrectedMatchesPieces | plover_hatchery/lib/alignment/match_sophemes.py:279-338 | as intended, when keysymbols and letters split into mapped pieces, the cheapest alignment up to the end of piece m leaves nothing unmatched and uses at most m chunks |
| MatchSophemes.CheapestAsCheapAsMatch | plover_hatchery/lib/alignment/match_sophemes.py:306-328 | an interior cell with a candidate leaving nothing unmatched in at most m chunks leaves nothing unmatched either, in at most m chunks |
| MatchSophemes.PieceMatchCandidate | plover_hatchery/lib/alignment/match_sophemes.py:314-328 | the match of a mapped piece, made from the cell at the piece's start, is a candidate of the cell at its end, costing one chunk more |
| MatchSophemes.SophemeKeySentinels | plover_hatchery/lib/alignment/match_sophemes.py:362-375 | the key of a run of sophemes is its base symbols, with an "" sentinel before when the first sopheme is silent and after when the last is |
| MatchSophemes.ChordIsMatchPointwise | plover_hatchery/lib/alignment/match_sophemes.py:386-393 | a chord matches a candidate exactly when it has the same keys in order and is struck with the asterisk wherever the candidate is |
| MatchSophemes.ChordMatchWithMoreAsterisks | plover_hatchery/lib/alignment/match_sophemes.py:386-393 | striking a matching chord with more asterisks still matches |
| MatchSophemes.SophemesToChordsWith | plover_hatchery/lib/alignment/match_sophemes.py:342-416 | the chord service orders costs as tuples, uses the given mapping lookups, measures an option by its keys and matches chords as `is_match` does |
| MatchSophemes.SophemesToChordsAsWritten | plover_hatchery/lib/alignment/match_sophemes.py:341-416 | as written the chord service has no mapping for any key, since it defines neither `has_mapping` nor `get_mapping_options` |
| MatchSophemes.ChordsAsWrittenOneSteneme | plover_hatchery/lib/alignment/match_sophemes.py:341-416 | as written any non-empty input aligns as one steneme holding every sopheme and every key, with no asterisk and no phoneme |
| MatchSophemes.SophemesToChords | plover_hatchery/lib/alignment/match_sophemes.py:342-416 | as evidently intended (the source defines no lookup here), a key has a mapping exactly when the chord table holds it, and its options are the table's chords |
| MatchSophemes.MatchSophemesToChords | plover_hatchery/lib/alignment/match_sophemes.py:418-419 | with both services as evidently intended, the keysymbols are aligned to the letters, then the resulting sophemes to the outline's keys; the result always exists when the chord table has no entry for the empty run |
| MatchSophemes.MatchSophemesAsWrittenOneSteneme | plover_hatchery/lib/alignment/match_sophemes.py:418-419 | as written neither stage matches anything: a non-empty input gives one steneme holding one sopheme (the whole translation and every keysymbol) and every key of the outline |
| MatchSophemes.PtAsWritten | plover_hatchery/lib/alignment/match_sophemes.py:279-281 | as written "p t" spelt "pt" aligns as one sopheme leaving both keysymbols and both letters unmatched |
| MatchSophemes.PtCorrected | plover_hatchery/lib/alignment/match_sophemes.py:16-100 | as intended, with the table's entries for "p" and "t", "p t" spelt "pt" aligns with nothing unmatched |
| MatchMorphology.Spellings | plover_hatchery/lib/alignment/match_morphology.py:59-62 | the spellings tried: the alternatives declared for the name, or else the name alone; never none, and each as long as the name |
| MatchMorphology.MappingOptions | plover_hatchery/lib/alignment/match_morphology.py:48-54 | a formatting part's only option is its name |
| MatchMorphology.TrimsExact | plover_hatchery/lib/alignment/match_morphology.py:64-73 | the options of one spelling are exactly its non-empty slices that drop only vowels from either end |
| MatchMorphology.MorphemeOptionsExact | plover_hatchery/lib/alignment/match_morphology.py:57-73 | a morpheme may be spelt exactly by one of its spellings with only vowels dropped from either end, and no option is empty or longer than the name |
| MatchMorphology.WholeNameIsOption | plover_hatchery/lib/alignment/match_morphology.py:59-73 | a morpheme without alternatives can always be spelt by its whole name |
| MatchMorphology.VowelConsonantVowelTrims | plover_hatchery/lib/alignment/match_morphology.py:64-73 | a three-letter spelling with vowels at both ends gives the whole, both one-sided trims and the middle letter, in the loops' order |
| MatchMorphology.IseOptions | plover_hatchery/lib/alignment/match_morphology.py:12-19 | "ise" is tried as "ise" and "ize", each keeping or dropping its first and last letters, in the loops' order |
| MatchMorphology.StopTrims | plover_hatchery/lib/alignment/match_morphology.py:69-73 | the stop loop yields the end trims of the specification for one start |
| MatchMorphology.SpellingTrims | plover_hatchery/lib/alignment/match_morphology.py:64-73 | the start loop yields the trims of the specification for one spelling |
| MatchMorphology.GetMappingOptions | plover_hatchery/lib/alignment/match_morphology.py:48-73 | the generator's options are those of the specification |
| MatchMorphology.ConstructMatch | plover_hatchery/lib/alignment/match_morphology.py:91-99 | the first part of the span with the span's letters as ortho; as written a span with no part raises TypeError, as intended it becomes a formatting part of those letters |
| MatchMorphology.MorphologyToChars | plover_hatchery/lib/alignment/match_morphology.py:26-99 | the service uses the sopheme costs and the tuple order; a run has a mapping exactly when it is one part; matches are built by `construct_match` |
| MatchMorphology.Collect | plover_hatchery/lib/alignment/match_morphology.py:117 | the matches are gathered in order and succeed exactly when every one of them does |
| MatchMorphology.TracebackCovers | plover_hatchery/lib/alignment/match_morphology.py:91-99 | the letters of the traced-back spans up to a stored cell are the translation up to it, in order |
| MatchMorphology.MatchedPartsFromSpans | plover_hatchery/lib/alignment/match_morphology.py:91-99 | each matched part is a part of the morphology with its span's letters as ortho, or a formatting part |
| MatchMorphology.MatchedMorphemesKnown | plover_hatchery/lib/alignment/match_morphology.py:91-99 | every matched morpheme is a morpheme of the morphology with only its ortho replaced, so its parent is still one of the old chunks |
| MatchMorphology.MatchedOrthos | plover_hatchery/lib/alignment/match_morphology.py:91-99 | the letters of the matched parts, in order, are the translation |
| MatchMorphology.Groups | plover_hatchery/lib/alignment/match_morphology.py:119-141 | the intended regrouping of non-empty parts has at least one chunk |
| MatchMorphology.ReconstructGroups | plover_hatchery/lib/alignment/match_morphology.py:119-151 | as intended, regrouping returns the chunks of the grouping specification and their parts in order |
| MatchMorphology.GroupsRegrouped | plover_hatchery/lib/alignment/match_morphology.py:119-141 | as intended, regrouping keeps every part in order, changing only the parents of the morphemes, and each new chunk is named as parent by its morphemes |
| MatchMorphology.SameParentJoins | plover_hatchery/lib/alignment/match_morphology.py:127-137 | two morphemes in a row of one old chunk land in one new chunk |
| MatchMorphology.OtherPartOpens | plover_hatchery/lib/alignment/match_morphology.py:120-134 | a formatting part, or a morpheme of another old chunk than the previous part's, opens a new chunk |
| MatchMorphology.CorrectedRegroups | plover_hatchery/lib/alignment/match_morphology.py:116-141 | as intended every match can be constructed, the matched parts keep known parents, and they are regrouped as the grouping specification groups them |
| MatchMorphology.MatchMorphologyCorrected | plover_hatchery/lib/alignment/match_morphology.py:116-141 | as intended matching always returns the regrouped matched parts, whose orthos spell the translation and whose chunks name their own morphemes |
| MatchMorphology.AsWrittenRun | plover_hatchery/lib/alignment/match_morphology.py:119-151 | as written a chunk once opened stays pending to the end of the loop, which either raises or ends with a chunk pending |
| MatchMorphology.AsWrittenReconstruct | plover_hatchery/lib/alignment/match_morphology.py:144-151 | as written regrouping any parts that hold a morpheme raises AttributeError |
| MatchMorphology.CorrectedReconstructReturns | plover_hatchery/lib/alignment/match_morphology.py:144-151 | as intended regrouping always returns |
| MatchMorphology.AsWrittenFirstMorpheme | plover_hatchery/lib/alignment/match_morphology.py:144-151 | as written a morphology whose first part is a morpheme is never matched |
| MatchMorphology.NoPartsAsWritten | plover_hatchery/lib/alignment/match_morphology.py:96-97 | as written a non-empty translation with no parts at all raises TypeError |
| MatchMorphology.NoPartsCorrected | plover_hatchery/lib/alignment/match_morphology.py:96-97 | as intended a translation with no parts is spelt by formatting parts alone, one chunk each |
| MatchMorphology.FormattingGroups | plover_hatchery/lib/alignment/match_morphology.py:120-124 | parts that are all formatting are grouped one chunk each, and the chunks' parts are the parts |
| MatchMorphology.Reconstructor.constructor | plover_hatchery/lib/alignment/match_morphology.py:104-113 | a new reconstructor holds the morphology and translation, with no chunk pending and nothing done |
| MatchMorphology.Reconstructor.FinishChunk | plover_hatchery/lib/alignment/match_morphology.py:144-151 | the state becomes that of the finishing specification, or is unchanged where the as-written code raises |
| MatchMorphology.Reconstructor.Step | plover_hatchery/lib/alignment/match_morphology.py:120-137 | one pass succeeds exactly when the step specification does, and the state becomes that of the specification |
| MatchMorphology.Reconstructor.Regroup | plover_hatchery/lib/alignment/match_morphology.py:119-141 | the loop and the final `__finish_chunk` give the regrouping specification's result |
| MatchMorphology.Reconstructor.Reconstruct | plover_hatchery/lib/alignment/match_morphology.py:116-141 | the result is the matching specification's: align, then regroup |
| MatchMorphology.MatchParts | plover_hatchery/lib/alignment/match_morphology.py:117 | the aligner's matches, gathered in order, are those of the specification |
| MatchMorphology.MatchMorphologyToChars | plover_hatchery/lib/alignment/match_morphology.py:154 | the result is the matching specification's |
| ParseMorphology.SeqNameAppend | plover_hatchery/lib/alignment/parse_morphology.py:13-15 | the name of a morpheme sequence is the names of its halves concatenated |
| ParseMorphology.SeqOrthoAppend | plover_hatchery/lib/alignment/parse_morphology.py:21-23 | the ortho of a morpheme sequence is the orthos of its halves concatenated |
| ParseMorphology.SeqPhonoAppend | plover_hatchery/lib/alignment/parse_morphology.py:17-19 | the phono of two non-empty morpheme sequences joined is their phonos with one space between |
| ParseMorphology.SingleMorphemeSeq | plover_hatchery/lib/alignment/parse_morphology.py:13-23 | a sequence of one morpheme has that morpheme's name, phono and ortho |
| ParseMorphology.ChunkDictKey | plover_hatchery/lib/alignment/parse_morphology.py:26-64 | an affix's dictionary key is an AffixKey carrying the suffix flag; a root's is a plain triple |
| ParseMorphology.RootKeyOfOneMorpheme | plover_hatchery/lib/alignment/parse_morphology.py:51-86 | a root of one morpheme has the same dictionary key as that morpheme (RootKey and MorphemeKey are equal tuples) |
| ParseMorphology.VarnameEnds | plover_hatchery/lib/alignment/parse_morphology.py:43-68 | a chunk's varname is one longer than its name; "#" first marks a root, "^" first a suffix, "^" last a prefix, and the rest is the name |
| ParseMorphology.VarnameDetermines | plover_hatchery/lib/alignment/parse_morphology.py:43-90 | for sigil-free non-empty names, two chunk varnames are equal exactly when kind and name are, and no chunk varname equals a morpheme's |
| ParseMorphology.BackSpaces | plover_hatchery/lib/alignment/parse_morphology.py:247 | the end of the stripped text: everything after it up to the end is whitespace, and the character before it is not |
| ParseMorphology.Strip | plover_hatchery/lib/alignment/parse_morphology.py:247 | `str.strip()`: no longer than its input and with no whitespace at either end |
| ParseMorphology.StripIsSlice | plover_hatchery/lib/alignment/parse_morphology.py:247 | what strip removes at either end is whitespace only |
| ParseMorphology.CatchUpSpec | plover_hatchery/lib/alignment/parse_morphology.py:166-168 | catching up stops at the first target character from the current position, or reads past the end (IndexError) when there is none |
| ParseMorphology.PhonoSpec | plover_hatchery/lib/alignment/parse_morphology.py:222-233 | reading the phono never moves the transcription position backwards or past the end |
| ParseMorphology.NameSpec | plover_hatchery/lib/alignment/parse_morphology.py:235-245 | reading the name never moves the morphology position backwards, and at most one past the end (the "=" step of two) |
| ParseMorphology.ReadUndelimited | plover_hatchery/lib/alignment/parse_morphology.py:222-245 | a phono or name read holds no "=" and no bracket character |
| ParseMorphology.MorphemeSpec | plover_hatchery/lib/alignment/parse_morphology.py:221-247 | reading a morpheme moves both positions forward and within bounds |
| ParseMorphology.MorphemeSpecClean | plover_hatchery/lib/alignment/parse_morphology.py:221-247 | a morpheme read names its parent chunk, has undelimited name and phono, a stripped phono and no ortho |
| ParseMorphology.ChunkBodySpec | plover_hatchery/lib/alignment/parse_morphology.py:181-186 | a completed chunk body ends just after its closing bracket, within both strings |
| ParseMorphology.ChunkBodyStep | plover_hatchery/lib/alignment/parse_morphology.py:181-186 | unless the closer is reached, the body is the morpheme read followed by the rest of the body |
| ParseMorphology.ChunkBodyClean | plover_hatchery/lib/alignment/parse_morphology.py:181-186 | every morpheme of a completed body names its parent chunk and is clean |
| ParseMorphology.ChunkSpec | plover_hatchery/lib/alignment/parse_morphology.py:176-218 | consuming a root, prefix or suffix moves past its opening and closing brackets |
| ParseMorphology.ChunkSpecUnfold | plover_hatchery/lib/alignment/parse_morphology.py:176-218 | consuming a chunk steps over its opener in both strings and then reads the body up to the matching closer |
| ParseMorphology.ChunkSpecClean | plover_hatchery/lib/alignment/parse_morphology.py:176-218 | the morphemes of a consumed chunk name it as parent and are clean |
| ParseMorphology.FormattingSpec | plover_hatchery/lib/alignment/parse_morphology.py:171-173 | at most one formatting part is produced before a chunk |
| ParseMorphology.FormattingSpecClean | plover_hatchery/lib/alignment/parse_morphology.py:171-173 | the formatting produced holds no morpheme and no opening bracket, and none at all under the test as written |
| ParseMorphology.PartMorphemesOfMorphemes | plover_hatchery/lib/alignment/parse_morphology.py:143-155 | the morphemes of parts made from morphemes are those morphemes |
| ParseMorphology.ChunkKeepsWellSplit | plover_hatchery/lib/alignment/parse_morphology.py:138-158 | adding the formatting and then a chunk of clean morphemes naming it keeps parts and chunks in step |
| ParseMorphology.SplitSpecWellSplit | plover_hatchery/lib/alignment/parse_morphology.py:136-163 | each round of the loop keeps parts and chunks in step, so a finished loop is well formed |
| ParseMorphology.SplitMorphologyShape | plover_hatchery/lib/alignment/parse_morphology.py:132-173 | a finished split lists the chunks' morphemes in order among its parts, every chunk is bracketed and its morphemes point back to it; as written, the parts are exactly the morphemes |
| ParseMorphology.SplitSpecChunk | plover_hatchery/lib/alignment/parse_morphology.py:136-159 | at an opening bracket the loop adds the formatting, the chunk's morphemes and the chunk, then goes on after the closer |
| ParseMorphology.FirstRootOfExample | plover_hatchery/lib/alignment/parse_morphology.py:140-144 | in "{a}-{b}" against "{a}{b}" the first root is read as the morpheme "a" |
| ParseMorphology.SecondRootOfExample | plover_hatchery/lib/alignment/parse_morphology.py:140-144 | in "{a}-{b}" against "{a}{b}" the second root is read as the morpheme "b" |
| ParseMorphology.HyphenBetweenRoots | plover_hatchery/lib/alignment/parse_morphology.py:136-173 | "{a}-{b}" against "{a}{b}": the evidently intended test keeps the hyphen as a formatting part between the two roots; as written it is dropped |
| ParseMorphology.StrayCloserHangs | plover_hatchery/lib/alignment/parse_morphology.py:206-247 | a root holding a stray ">" never finishes: reading a morpheme there moves neither position |
| ParseMorphology.Parser.constructor | plover_hatchery/lib/alignment/parse_morphology.py:110-117 | a parser starts at position 0 in both strings |
| ParseMorphology.Parser.CatchUp | plover_hatchery/lib/alignment/parse_morphology.py:166-168 | moves the transcription position as the catch-up spec says and reports an IndexError exactly when it does |
| ParseMorphology.Parser.ReadPhono | plover_hatchery/lib/alignment/parse_morphology.py:222-233 | reads the phono and moves the transcription position as the phono spec says |
| ParseMorphology.Parser.ReadName | plover_hatchery/lib/alignment/parse_morphology.py:235-245 | reads the name and moves the morphology position as the name spec says |
| ParseMorphology.Parser.ConsumeMorpheme | plover_hatchery/lib/alignment/parse_morphology.py:221-247 | returns the morpheme and positions of the morpheme spec, failing exactly when it does |
| ParseMorphology.Parser.ConsumeMorphemes | plover_hatchery/lib/alignment/parse_morphology.py:181-186 | the body loop returns the morphemes and positions of the body spec, with an IndexError exactly when it has one |
| ParseMorphology.Parser.ConsumeChunk | plover_hatchery/lib/alignment/parse_morphology.py:176-218 | returns the chunk's morphemes and positions of the chunk spec, with an IndexError exactly when it has one |
| ParseMorphology.Parser.SplitMorphology | plover_hatchery/lib/alignment/parse_morphology.py:132-163 | the split loop finishes or raises exactly when the split spec does, with the same morphology |
| ParseMorphology.SplitMorphology | plover_hatchery/lib/alignment/parse_morphology.py:250-251 | split_morphology agrees with the split spec, and a finished result is well formed |
| GenerateFromUnilex.EmptyTracker | plover_hatchery/lib/dictionary/generate_from_unilex.py:20-24 | a new tracker has no keys, ids or names, and satisfies the tracker invariant |
| GenerateFromUnilex.IdOf | plover_hatchery/lib/dictionary/generate_from_unilex.py:41-42 | a base key has an id exactly when it was registered (otherwise KeyError), and the id is that of its normalised key |
| GenerateFromUnilex.Registered | plover_hatchery/lib/dictionary/generate_from_unilex.py:27-38 | the base key always maps to the normalised key; a normalised key seen before keeps its item and id; a new one is appended to its name's list, numbered one past that list's old length, and no other name's list changes |
| GenerateFromUnilex.RegisteredValid | plover_hatchery/lib/dictionary/generate_from_unilex.py:27-38 | register keeps the tracker invariant and the registered base key has an id afterwards |
| GenerateFromUnilex.BaseKeysStillResolve | plover_hatchery/lib/dictionary/generate_from_unilex.py:27-42 | after register every base key still leads to a normalised key with an id |
| GenerateFromUnilex.NewKeyPositions | plover_hatchery/lib/dictionary/generate_from_unilex.py:33-38 | after registering a new normalised key, every id still indexes its own item in its name's list |
| GenerateFromUnilex.NewKeyPosition | plover_hatchery/lib/dictionary/generate_from_unilex.py:33-38 | a new normalised key's id is the 1-based position of its item in its name's list |
| GenerateFromUnilex.OldKeyPosition | plover_hatchery/lib/dictionary/generate_from_unilex.py:33-38 | registering a new normalised key leaves every earlier key's id pointing at its item |
| GenerateFromUnilex.NewKeyIdsDistinct | plover_hatchery/lib/dictionary/generate_from_unilex.py:33-38 | the new id differs from every id already given under its name |
| GenerateFromUnilex.RegisteredValidIf | plover_hatchery/lib/dictionary/generate_from_unilex.py:27-38 | register maps a valid tracker to a valid tracker |
| GenerateFromUnilex.RegisterEach | plover_hatchery/lib/dictionary/generate_from_unilex.py:27-38 | registering a sequence in order keeps the tracker valid |
| GenerateFromUnilex.NumberedInOrder | plover_hatchery/lib/dictionary/generate_from_unilex.py:27-38 | items with new normalised keys under a fresh name are numbered 1, 2, ... in registration order and listed in that order |
| GenerateFromUnilex.EarlierRegistrationKept | plover_hatchery/lib/dictionary/generate_from_unilex.py:27-38 | registering a new key leaves an earlier base key's normalised key, id and item as they were |
| GenerateFromUnilex.NewKeysStayNew | plover_hatchery/lib/dictionary/generate_from_unilex.py:27-38 | a normalised key neither held nor registered stays unregistered |
| GenerateFromUnilex.FullVarname | plover_hatchery/lib/dictionary/generate_from_unilex.py:96-110 | the bare varname when exactly one item has that name, otherwise the varname, ":" and the item's id in decimal (None for the KeyError of an unregistered key) |
| GenerateFromUnilex.FullVarnamesDistinct | plover_hatchery/lib/dictionary/generate_from_unilex.py:96-110 | two different normalised keys registered under one name get different full varnames, so no definition overwrites another |
| GenerateFromUnilex.FullVarnameNamesItem | plover_hatchery/lib/dictionary/generate_from_unilex.py:96-110 | the id a full varname ends in picks out exactly its item from the list of its name |
| GenerateFromUnilex.TransclusionStressMarker | plover_hatchery/lib/dictionary/generate_from_unilex.py:150-154 | empty exactly when the relative stress is 0, otherwise "!" and the relative stress in decimal |
| GenerateFromUnilex.StressMarkerAgrees | plover_hatchery/lib/dictionary/generate_from_unilex.py:150-154 | the marker is the one a keysymbol of that stress prints |
| GenerateFromUnilex.StressedMorphemesMarked | plover_hatchery/lib/dictionary/generate_from_unilex.py:120-127 | within a chunk, every stressed morpheme's transclusion carries a marker, and those at the chunk's max stress get "!1" |
| GenerateFromUnilex.TransclusionSyntax | plover_hatchery/lib/dictionary/generate_from_unilex.py:120-139 | "{", full varname, "}" and stress marker; defined exactly when the base key is registered |
| GenerateFromUnilex.MorphemeTransclusion | plover_hatchery/lib/dictionary/generate_from_unilex.py:120-127 | a morpheme's transclusion is defined exactly when it is registered, and begins "{@" |
| GenerateFromUnilex.EntryTracker.constructor | plover_hatchery/lib/dictionary/generate_from_unilex.py:20-24 | a new tracker is empty and valid |
| GenerateFromUnilex.EntryTracker.Register | plover_hatchery/lib/dictionary/generate_from_unilex.py:27-38 | updates the dictionaries as the register spec says and keeps the tracker invariant |
| GenerateFromUnilex.EntryTracker.Update | plover_hatchery/lib/dictionary/generate_from_unilex.py:27-38 | the dictionary updates of register, as the register spec says |
| GenerateFromUnilex.EntryTracker.IdFromBaseKey | plover_hatchery/lib/dictionary/generate_from_unilex.py:41-42 | the id of a registered base key, as IdOf says |
| GenerateFromUnilex.EntryTracker.BaseKeys | plover_hatchery/lib/dictionary/generate_from_unilex.py:45-46 | every registered base key, each of which has an id |
| GenerateFromUnilex.RegisterChunkFacts | plover_hatchery/lib/dictionary/generate_from_unilex.py:240-253 | registering a chunk keeps the trackers valid, gives it an id in its kind's tracker and keeps earlier ids |
| GenerateFromUnilex.SameSlotOrUntouched | plover_hatchery/lib/dictionary/generate_from_unilex.py:65-68 | registering a chunk touches only the tracker of its kind |
| GenerateFromUnilex.RegisteredKeepsIds | plover_hatchery/lib/dictionary/generate_from_unilex.py:27-38 | register keeps the invariant, gives its key an id and keeps every earlier id |
| GenerateFromUnilex.ChunksRegistered | plover_hatchery/lib/dictionary/generate_from_unilex.py:240-253 | after an entry's chunks are registered, each root and affix has an id, and earlier ids are kept |
| GenerateFromUnilex.RegisterPartFacts | plover_hatchery/lib/dictionary/generate_from_unilex.py:228-235 | registering a part keeps the tracker valid, gives a morpheme an id and keeps earlier ids |
| GenerateFromUnilex.PartsRegistered | plover_hatchery/lib/dictionary/generate_from_unilex.py:228-235 | after an entry's parts are registered, every morpheme has an id, and earlier ids are kept |
| GenerateFromUnilex.KeptEntries | plover_hatchery/lib/dictionary/generate_from_unilex.py:239-261 | an entry is kept exactly when it has no inflectional suffix ("s", "ing", "ed", "'s") |
| GenerateFromUnilex.EntriesRegistered | plover_hatchery/lib/dictionary/generate_from_unilex.py:221-261 | every root and affix of every entry read, kept or not, has an id at the end |
| GenerateFromUnilex.Converter.constructor | plover_hatchery/lib/dictionary/generate_from_unilex.py:58-62 | a converter starts with four empty trackers and no entries |
| GenerateFromUnilex.Converter.RegisterMorphemes | plover_hatchery/lib/dictionary/generate_from_unilex.py:228-235 | registers the entry's morphemes as RegisterParts says, keeping the converter valid |
| GenerateFromUnilex.Converter.RegisterChunks | plover_hatchery/lib/dictionary/generate_from_unilex.py:239-253 | registers every root and affix as the chunk spec says, and reports ignore exactly for an inflected entry |
| GenerateFromUnilex.Converter.AddEntry | plover_hatchery/lib/dictionary/generate_from_unilex.py:221-261 | registers one parsed entry and keeps it exactly when it is not inflected |
| GenerateFromUnilex.Converter.AddEntries | plover_hatchery/lib/dictionary/generate_from_unilex.py:206-261 | every parsed entry is registered in order and exactly the uninflected ones are kept, in order |
| GenerateFromUnilex.KeptEntriesAppend | plover_hatchery/lib/dictionary/generate_from_unilex.py:239-261 | keeping entries one at a time keeps the same entries as keeping them all |
| GenerateFromUnilex.FormattingSyntax | plover_hatchery/lib/dictionary/generate_from_unilex.py:141-142 | formatting is written as its characters followed by "." (a sopheme with no keysymbols) |
| GenerateFromUnilex.ChunkSyntax | plover_hatchery/lib/dictionary/generate_from_unilex.py:129-174 | formatting becomes its bare sopheme; a root or affix its transclusion, defined exactly when registered and starting with "{" |
| GenerateFromUnilex.ChunkSyntaxes | plover_hatchery/lib/dictionary/generate_from_unilex.py:156-176 | every chunk's syntax in order, or none when some chunk has none |
| GenerateFromUnilex.FinalEntryDefinition | plover_hatchery/lib/dictionary/generate_from_unilex.py:156-176 | defined exactly when every chunk has a syntax, and then the chunk syntaxes joined by spaces |
| GenerateFromUnilex.EntriesDefined | plover_hatchery/lib/dictionary/generate_from_unilex.py:206-307 | once all entries are registered, every entry with well-formed formatting has a definition |
| Banks.SplitStrokeParts | plover_hatchery/lib/pipes/declare_banks.py:21-27 | the four parts are the stroke's keys in the left, mid, right and positionless banks |
| Banks.SplitStrokePartsPartitions | plover_hatchery/lib/pipes/declare_banks.py:21-27 | for disjoint banks and a stroke within them, the four parts are pairwise disjoint and make up the stroke |
| Banks.CanAddStrokeOn | plover_hatchery/lib/pipes/declare_banks.py:30-35 | true exactly when every non-positionless key of the first stroke precedes every non-positionless key of the second in steno order (vacuously when either has none) |
| Steno.CanAddStrokeOnIgnoring | plover_hatchery/lib/pipes/declare_banks.py:30-35 | true when either stroke is empty once the ignored keys are removed, and otherwise exactly when every remaining key of the first precedes every remaining key of the second |
| Steno.CanAddStrokeOnIgnoringOrder | plover_hatchery/lib/pipes/floating_keys.py:15-20 | the last-key/first-key test is the same as every non-ignored key of the first stroke preceding every non-ignored key of the second |
| FloatingKeys.CanAddStrokeOn | plover_hatchery/lib/pipes/floating_keys.py:15-20 | true exactly when every non-floating key of the first stroke precedes every non-floating key of the second |
| FloatingKeys.Split | plover_hatchery/lib/pipes/floating_keys.py:28-29 | the two parts are disjoint, make up the stroke, and the second holds exactly its floaters |
| FloatingKeys.StrokeKeysWithFloatingLast | plover_hatchery/lib/pipes/floating_keys.py:31-32 | lists each key of the stroke once, the non-floaters in steno order and then the floaters in steno order |
| FloatingKeys.FloatingLastOrder | plover_hatchery/lib/pipes/floating_keys.py:31-32 | the concatenated key lists of the two parts have exactly that order and content |
| ConsonantInversions.Overlapping | plover_hatchery/lib/pipes/consonant_inversions.py:106-107 | the listed domains are exactly those of the list that share a key with the stroke |
| ConsonantInversions.OverlappingOne | plover_hatchery/lib/pipes/consonant_inversions.py:106-112 | exactly one domain is listed exactly when one domain alone touches the stroke, and then it is that domain |
| ConsonantInversions.DomainOfUnique | plover_hatchery/lib/pipes/consonant_inversions.py:106-112 | a domain is found exactly when the stroke touches a single domain, and it is that domain; otherwise None |
| ConsonantInversions.ConsSorted | plover_hatchery/lib/pipes/consonant_inversions.py:182 | a head no later than a sorted tail keeps the list sorted by indices |
| ConsonantInversions.InsertByIndices | plover_hatchery/lib/pipes/consonant_inversions.py:182 | inserting into a sorted list keeps it sorted and adds exactly the element |
| ConsonantInversions.SortByIndices | plover_hatchery/lib/pipes/consonant_inversions.py:182 | sorting by indices gives a sorted permutation of the phonemes |
| ConsonantInversions.Walk | plover_hatchery/lib/pipes/consonant_inversions.py:197-215 | the walk that succeeds remembers a valid phoneme of the entry (or none at the end) |
| ConsonantInversions.ConsecutiveMatch | plover_hatchery/lib/pipes/consonant_inversions.py:202-205 | when the current phoneme is the one sought, the rest must be consecutive from the next phoneme |
| ConsonantInversions.ConsecutiveSkip | plover_hatchery/lib/pipes/consonant_inversions.py:207-209 | an optional phoneme that is not sought is skipped |
| ConsonantInversions.ConsecutiveRequired | plover_hatchery/lib/pipes/consonant_inversions.py:211 | a required phoneme that is not sought makes the check fail |
| ConsonantInversions.WalkIff | plover_hatchery/lib/pipes/consonant_inversions.py:197-215 | the walk succeeds, stopping at n, exactly when the phonemes sought are strictly increasing from the start, with only optional phonemes between them, and n follows the last |
| ConsonantInversions.OrderToCheck | plover_hatchery/lib/pipes/consonant_inversions.py:181-184 | within a domain, the bank's phonemes sorted by indices (a sorted permutation); outside one, as written |
| ConsonantInversions.WalkStart | plover_hatchery/lib/pipes/consonant_inversions.py:187-190 | the remembered phoneme, else the entry's first phoneme; always a valid position |
| ConsonantInversions.Consecutivity | plover_hatchery/lib/pipes/consonant_inversions.py:172-215 | validation changes only the remembered phoneme, and nothing when it fails |
| ConsonantInversions.ConsecutivityMeaning | plover_hatchery/lib/pipes/consonant_inversions.py:172-215 | a bank with phonemes passes exactly when, in the order checked, its phonemes are consecutive from the walk's start, and the phoneme after the last is remembered |
| ConsonantInversions.StartNewBank | plover_hatchery/lib/pipes/consonant_inversions.py:236-241 | validating and starting a new bank leaves an empty bank with no domain when it passes |
| ConsonantInversions.CheckAssociationSpec | plover_hatchery/lib/pipes/consonant_inversions.py:218-233 | checking an association keeps the remembered phoneme a valid position |
| ConsonantInversions.CheckAssociationBanks | plover_hatchery/lib/pipes/consonant_inversions.py:218-233 | an association in the same domain without a new stroke joins the current bank; otherwise the bank is validated first and a new one holds just the association's phonemes |
| ConsonantInversions.FinalValidateSpec | plover_hatchery/lib/pipes/consonant_inversions.py:245-249 | the final check passes exactly when the last bank validates and the walk has reached the end of the entry (no phoneme is left to write) |
| ConsonantInversions.FinalValidateMeaning | plover_hatchery/lib/pipes/consonant_inversions.py:245-249 | with phonemes in the last bank, the final check passes exactly when they are consecutive from the walk's start and the last of them ends the entry |
| ConsonantInversions.FirstAssociation | plover_hatchery/lib/pipes/consonant_inversions.py:218-233 | the first association opens a bank in its own domain holding just its phonemes |
| ConsonantInversions.AcceptedPair | plover_hatchery/lib/pipes/consonant_inversions.py:252-260 | a two-association result is kept exactly when both checks pass and the final check passes |
| ConsonantInversions.SortedPair | plover_hatchery/lib/pipes/consonant_inversions.py:182 | within a domain, two phonemes given in inverted order are checked in reading order |
| ConsonantInversions.InvertedBankFinal | plover_hatchery/lib/pipes/consonant_inversions.py:172-249 | a domain bank holding two adjacent phonemes in inverted order passes the final check |
| ConsonantInversions.InversionInDomainAccepted | plover_hatchery/lib/pipes/consonant_inversions.py:218-260 | two adjacent consonants written in inverted order within one inversion domain are accepted |
| ConsonantInversions.InversionOutsideDomainsRejected | plover_hatchery/lib/pipes/consonant_inversions.py:218-260 | outside every domain the inverted pair is rejected when the first phoneme is required |
| ConsonantInversions.WalkPhonemes | plover_hatchery/lib/pipes/consonant_inversions.py:197-215 | the loop returns exactly what the walk spec gives |
| ConsonantInversions.Filterer.constructor | plover_hatchery/lib/pipes/consonant_inversions.py:161-165 | a new filter has no domain, no phonemes and nothing remembered |
| ConsonantInversions.Filterer.Reset | plover_hatchery/lib/pipes/consonant_inversions.py:167-169 | clears the domain and the bank's phonemes and keeps the remembered phoneme |
| ConsonantInversions.Filterer.ValidateConsecutivity | plover_hatchery/lib/pipes/consonant_inversions.py:172-215 | returns and updates as the consecutivity spec says |
| ConsonantInversions.Filterer.ValidateAndStartNewBank | plover_hatchery/lib/pipes/consonant_inversions.py:236-241 | returns and updates as the new-bank spec says |
| ConsonantInversions.Filterer.CheckAssociation | plover_hatchery/lib/pipes/consonant_inversions.py:218-233 | returns and updates as the association spec says |
| ConsonantInversions.Filterer.FinalValidate | plover_hatchery/lib/pipes/consonant_inversions.py:245-249 | returns the final-validate spec of the state |
| ConsonantInversions.ValidateLookupResult | plover_hatchery/lib/pipes/consonant_inversions.py:252-260 | a result is kept exactly when every association passes in turn and the final check passes |
| ConsonantInversions.ConsonantInversionsState.constructor | plover_hatchery/lib/pipes/consonant_inversions.py:64-74 | the past-consonant list starts empty |
| ConsonantInversions.ConsonantInversionsState.AddSophTransition | plover_hatchery/lib/pipes/consonant_inversions.py:100-103 | a required phoneme clears the past-consonant list, then the phoneme is appended with its consonant sounds |
| IntrabankConsonantInversions.ConsonantFrom | plover_hatchery/lib/sopheme/SophemeSeq.py:129-135 | the consonant found from a position is a valid consonant position of the entry |
| IntrabankConsonantInversions.NextConsonant | plover_hatchery/lib/sopheme/SophemeSeq.py:129-135 | `next_consonant` returns a valid consonant position, or none |
| IntrabankConsonantInversions.FirstConsonantPos | plover_hatchery/lib/sopheme/Definition.py:30-36 | the entry's first consonant is a valid consonant position, or none |
| IntrabankConsonantInversions.ConsonantFromIsNearest | plover_hatchery/lib/sopheme/SophemeSeq.py:129-135 | the consonant found is the nearest one not before the start, and none is found only when no consonant follows |
| IntrabankConsonantInversions.NextConsonantIsNearest | plover_hatchery/lib/sopheme/SophemeSeq.py:129-135 | `next_consonant` gives the nearest later consonant, and none only when no consonant follows |
| IntrabankConsonantInversions.FirstConsonantIsFirst | plover_hatchery/lib/sopheme/Definition.py:30-36 | the first consonant precedes every other consonant, and there is none only when the entry has no consonant |
| IntrabankConsonantInversions.NextConsonantUnique | plover_hatchery/lib/sopheme/SophemeSeq.py:129-135 | anything that is the nearest later consonant is what `next_consonant` returns |
| IntrabankConsonantInversions.FirstConsonantUnique | plover_hatchery/lib/sopheme/Definition.py:30-36 | anything that is the earliest consonant is the first consonant |
| IntrabankConsonantInversions.ConsonantWalk | plover_hatchery/lib/pipes/intrabank_consonant_inversions.py:292-310 | a walk that succeeds remembers a valid consonant, or none at the end |
| IntrabankConsonantInversions.ConsonantsMatch | plover_hatchery/lib/pipes/intrabank_consonant_inversions.py:297-300 | when the current consonant is the one sought, the rest must be consecutive from the next consonant |
| IntrabankConsonantInversions.ConsonantsSkip | plover_hatchery/lib/pipes/intrabank_consonant_inversions.py:302-304 | an optional consonant that is not sought is skipped |
| IntrabankConsonantInversions.ConsonantsRequired | plover_hatchery/lib/pipes/intrabank_consonant_inversions.py:306 | a required consonant that is not sought makes the check fail |
| IntrabankConsonantInversions.ConsonantWalkIff | plover_hatchery/lib/pipes/intrabank_consonant_inversions.py:292-310 | the walk succeeds, stopping at n, exactly when the sought phonemes are strictly increasing consonants from the start with only optional consonants between, and n is the consonant after the last |
| IntrabankConsonantInversions.AddToStrokeSpec | plover_hatchery/lib/pipes/intrabank_consonant_inversions.py:253-255 | a stroke without vowel keys joins the bank's keys; one with a vowel key is ignored, so the bank never holds a vowel key |
| IntrabankConsonantInversions.WalkStart | plover_hatchery/lib/pipes/intrabank_consonant_inversions.py:282-285 | the remembered consonant, else the entry's first consonant (the evidently intended lookup) |
| IntrabankConsonantInversions.Consecutivity | plover_hatchery/lib/pipes/intrabank_consonant_inversions.py:270-310 | validation changes only the remembered consonant, and nothing when it fails |
| IntrabankConsonantInversions.ConsecutivityMeaning | plover_hatchery/lib/pipes/intrabank_consonant_inversions.py:270-310 | a bank with phonemes passes exactly when, in reading order, they are consecutive consonants from the walk's start, and the consonant after the last is remembered |
| IntrabankConsonantInversions.ConsecutivityAsWritten | plover_hatchery/lib/pipes/intrabank_consonant_inversions.py:276-285 | as written, validation raises AttributeError exactly when the bank has phonemes and no consonant is remembered; otherwise it agrees with the corrected validation |
| IntrabankConsonantInversions.StartNewBank | plover_hatchery/lib/pipes/intrabank_consonant_inversions.py:334-339 | passes exactly when validation passes, and then leaves an empty bank with the consonant reached remembered; a failure changes nothing |
| IntrabankConsonantInversions.CheckTransitionSpec | plover_hatchery/lib/pipes/intrabank_consonant_inversions.py:313-331 | checking a transition keeps the remembered consonant a valid consonant position |
| IntrabankConsonantInversions.CheckTransitionCases | plover_hatchery/lib/pipes/intrabank_consonant_inversions.py:313-331 | an epsilon transition passes and changes nothing; a stroke boundary, or a non-left key in a left bank, passes exactly when the bank validates and then empties the bank; any other key records its mapped phoneme and joins the bank's keys |
| IntrabankConsonantInversions.RunFrom | plover_hatchery/lib/pipes/intrabank_consonant_inversions.py:354-356 | running the checks keeps the remembered consonant valid |
| IntrabankConsonantInversions.After | plover_hatchery/lib/pipes/intrabank_consonant_inversions.py:354-356 | the state after all checks keeps the remembered consonant valid |
| IntrabankConsonantInversions.RunFromIff | plover_hatchery/lib/pipes/intrabank_consonant_inversions.py:354-356 | the run passes exactly when every transition passes in the state the earlier ones leave, and then ends in that state |
| IntrabankConsonantInversions.FinalValidateSpec | plover_hatchery/lib/pipes/intrabank_consonant_inversions.py:343-347 | the final check passes exactly when the bank validates and no consonant is left to write |
| IntrabankConsonantInversions.AcceptedIff | plover_hatchery/lib/pipes/intrabank_consonant_inversions.py:350-358 | a result is kept exactly when every transition passes in turn and the final validation holds in the state they leave |
| IntrabankConsonantInversions.SortedInvertedPair | plover_hatchery/lib/pipes/intrabank_consonant_inversions.py:279 | sorting by indices puts the earlier consonant first |
| IntrabankConsonantInversions.InvertedBankState | plover_hatchery/lib/pipes/intrabank_consonant_inversions.py:313-331 | two left-bank keys written in inverted order leave a bank holding both consonants, the later first |
| IntrabankConsonantInversions.InversionWithinBankAccepted | plover_hatchery/lib/pipes/intrabank_consonant_inversions.py:270-358 | two adjacent consonants written in inverted order within the left bank are accepted |
| IntrabankConsonantInversions.InversionWithinBankAsWrittenRaises | plover_hatchery/lib/pipes/intrabank_consonant_inversions.py:276-285 | as written, the final validation of that same result raises AttributeError |
| IntrabankConsonantInversions.WalkConsonants | plover_hatchery/lib/pipes/intrabank_consonant_inversions.py:292-310 | the loop returns exactly what the consonant walk spec gives |
| IntrabankConsonantInversions.Filterer.constructor | plover_hatchery/lib/pipes/intrabank_consonant_inversions.py:247-251 | a new filter has an empty bank and nothing remembered |
| IntrabankConsonantInversions.Filterer.AddToStroke | plover_hatchery/lib/pipes/intrabank_consonant_inversions.py:253-255 | updates the bank's keys as the add-to-stroke spec says |
| IntrabankConsonantInversions.Filterer.Reset | plover_hatchery/lib/pipes/intrabank_consonant_inversions.py:265-267 | empties the bank's keys and phonemes and keeps the remembered consonant |
| IntrabankConsonantInversions.Filterer.ValidateConsecutivity | plover_hatchery/lib/pipes/intrabank_consonant_inversions.py:270-310 | returns and updates as the consecutivity spec says |
| IntrabankConsonantInversions.Filterer.ValidateAndStartNewBank | plover_hatchery/lib/pipes/intrabank_consonant_inversions.py:334-339 | returns and updates as the new-bank spec says |
| IntrabankConsonantInversions.Filterer.CheckTransition | plover_hatchery/lib/pipes/intrabank_consonant_inversions.py:313-331 | returns and updates as the transition spec says |
| IntrabankConsonantInversions.Filterer.FinalValidate | plover_hatchery/lib/pipes/intrabank_consonant_inversions.py:343-347 | returns the final-validate spec of the state |
| IntrabankConsonantInversions.CheckShouldKeep | plover_hatchery/lib/pipes/intrabank_consonant_inversions.py:350-358 | a result is kept exactly when the accepted spec says so |
| IntrabankConsonantInversions.InversionsState.constructor | plover_hatchery/lib/pipes/intrabank_consonant_inversions.py:43-46 | the inversion state starts with no sources and no past phonemes |
| IntrabankConsonantInversions.InversionsState.BeforeCompleteConsonant | plover_hatchery/lib/pipes/intrabank_consonant_inversions.py:72-143 | with no current phoneme nothing changes; otherwise it is remembered and the bank's sources and new branch nodes become branch sources |
| IntrabankConsonantInversions.InversionsState.BeforeCompleteVowel | plover_hatchery/lib/pipes/intrabank_consonant_inversions.py:202-207 | the state is cleared unless the current phoneme is optional |
| IntrabankConsonantInversions.GlobalState.constructor | plover_hatchery/lib/pipes/intrabank_consonant_inversions.py:59-62 | the phoneme map starts empty |
| IntrabankConsonantInversions.GlobalState.RecordFirstTransitions | plover_hatchery/lib/pipes/intrabank_consonant_inversions.py:78-81 | the first transition of each joined path is mapped to the phoneme for the entry, and every other key keeps its phoneme |
| AltChords.ValidateFromIff | plover_hatchery/lib/pipes/alt_chords.py:35-59 | from any association on, the check passes exactly when every alternate chord used has no main chord that fits between its neighbours |
| AltChords.ValidateLookupResultIff | plover_hatchery/lib/pipes/alt_chords.py:31-59 | a lookup result is kept exactly when every alternate chord it uses is justified: no main chord for its sounds could follow the chord before it and precede the chord after it |
| AltChords.NoAltChordKept | plover_hatchery/lib/pipes/alt_chords.py:35-37 | a result that uses no alternate chord is always kept |
| AltChords.CostKept | plover_hatchery/lib/pipes/alt_chords.py:16-18 | `KOFT` for "cost" is kept: the main chord -S cannot come before -T |
| AltChords.CossRejected | plover_hatchery/lib/pipes/alt_chords.py:16-18 | `KOF` is rejected: with nothing after it, the main chord -S could have been used |
| ConflictCycler.TrailingCyclers | plover_hatchery/lib/pipes/conflict_cycler_stroke.py:33-43 | the number of trailing cycler strokes is at most the outline's length |
| ConflictCycler.TrailingCyclersMaximal | plover_hatchery/lib/pipes/conflict_cycler_stroke.py:33-43 | the counted trailing strokes are all the cycler stroke, and the stroke before them (if any) is not |
| ConflictCycler.CyclerCountRoundTrip | plover_hatchery/lib/pipes/conflict_cycler_stroke.py:31-45 | an outline ending in k cycler strokes after a non-cycler counts k and trims back to the outline without them |
| ConflictCycler.SelectTranslation | plover_hatchery/lib/pipes/conflict_cycler_stroke.py:48-55 | no translation (ZeroDivisionError) exactly when there are no choices; otherwise the translation of one of the choices |
| ConflictCycler.SelectionCycles | plover_hatchery/lib/pipes/conflict_cycler_stroke.py:55 | the k-th choice for k below the number of choices, and the selection repeats with the number of choices as period |
| ConflictCycler.FreshStatePicksLast | plover_hatchery/lib/pipes/conflict_cycler_stroke.py:23-55 | with the initial conflict index -1 the last choice is selected (Python's floored modulo) |
| ConflictCycler.CyclerState.constructor | plover_hatchery/lib/pipes/conflict_cycler_stroke.py:21-28 | a fresh state has conflict index -1 |
| ConflictCycler.CyclerState.ProcessOutline | plover_hatchery/lib/pipes/conflict_cycler_stroke.py:31-45 | records the number of trailing cycler strokes as the conflict index and returns the outline without them |
| IterHelpers.TakeFirstNonempty | plover_hatchery/lib/pipes/iter_helpers.py:10-20 | the output is empty or one of the inputs |
| IterHelpers.TakeFirstNonemptyIsFirst | plover_hatchery/lib/pipes/iter_helpers.py:10-20 | empty exactly when every input is empty, and otherwise the first non-empty input |
| IterHelpers.TakeFirstMatchIsFirst | plover_hatchery/lib/pipes/iter_helpers.py:23-29 | empty exactly when every generator yields nothing for the key, and otherwise the output of the first generator that yields something |
| IterHelpers.WordLength | plover_hatchery/lib/pipes/iter_helpers.py:40 | the length of the leading run of non-whitespace characters |
| IterHelpers.WordsAreWords | plover_hatchery/lib/pipes/iter_helpers.py:40 | every piece `split()` yields is a non-empty run of non-whitespace |
| IterHelpers.WordsOfWordThenSpace | plover_hatchery/lib/pipes/iter_helpers.py:40 | a word followed by a space and more text splits into the word and the rest's words |
| IterHelpers.WordsOfWord | plover_hatchery/lib/pipes/iter_helpers.py:40 | a single word splits into itself |
| IterHelpers.WordsOfJoin | plover_hatchery/lib/pipes/iter_helpers.py:40 | splitting words joined by single spaces gives the words back |
| IterHelpers.Chords | plover_hatchery/lib/pipes/iter_helpers.py:39-45 | the same strokes for every key: one per whitespace-separated steno, parsed in order |
| IterHelpers.ChordsOfJoin | plover_hatchery/lib/pipes/iter_helpers.py:39-45 | chords of stenos joined by spaces gives one stroke per steno, in order |
| IterHelpers.IfAllIfAnyDual | plover_hatchery/lib/pipes/iter_helpers.py:48-65 | not all predicates hold exactly when some negated predicate holds; with no predicates if_all holds and if_any does not |
| IterHelpers.YieldIfComplement | plover_hatchery/lib/pipes/iter_helpers.py:32-37 | filtering a generator on a predicate and on its negation splits it: exactly one of the two yields for a key, and what it yields is the generator's output |
| TrieExamples.FollowCreatesNode | plover_hatchery_lib_rs/src/trie/nondeterministic_trie.rs:905-918 | a new trie has one node, and following a key from the root creates node 1 along a path of one transition |
| TrieExamples.SetAndGetTranslationAsWritten | plover_hatchery_lib_rs/src/trie/nondeterministic_trie.rs:920-930 | as written, the test costs the transition for translation 0 but stores translation 42, so the lookup finds nothing and the expected (42, 1.0) is not produced |
| TrieExamples.SetAndGetTranslationIntended | plover_hatchery_lib_rs/src/trie/nondeterministic_trie.rs:920-930 | with the transition costed for translation 42, the lookup reports exactly (42, 1) |

## Left out

- File and network I/O, the Flask server, TOML and JSON output, the pyo3 Python bindings (`flag_transition_py`, `__str__`/`__repr__`/`__hash__` wrappers), `profile`, `to_json` and the debug printers of the tries: none of them is part of the lookup logic.
- Floating-point costs: costs are unbounded integers, so rounding and the `INFINITY` sentinel of the Rust trie (used only to mean "no cost") are not modelled.
- Hash-map and hash-set iteration order: `reversed_nodes`, `get_translations_and_min_costs`, the subtrie search and the reverse lookup produce their results by iterating hash maps, so only order-independent properties of their results are stated.
- Python generator laziness and early termination: generators are modelled as the finite sequences they would yield in full. Where the source asks a generator for its length, the model gives the `TypeError` instead (`ParsePy.TokenSource`).
- Plover's `Stroke` and `Stroke.from_steno`: a stroke is a set of key positions in steno order, and parsing steno text into strokes is a parameter.
- The theory tables of the default theory (chord tables, vowel and consonant sound tables, transition costs, the Unilex mappings other than the ones the proofs need): each is a parameter of the operation that reads it.
- `NondeterministicTriePy.NondeterministicTrie`: `build_reverse_lookup` and `build_subtrie_builder` (NondeterministicTrie.py:469-560) are not modelled separately; they are the same depth-first searches as the Rust `dfs_reverse_lookup` and `dfs_subtrie`, which are.
- `EntryState.Elider`: `execute` (Elider.py:16-23), which links the elider's source nodes into the trie, is not modelled; only the bookkeeping of the source nodes is.
- `ConsonantInversions.ConsonantInversionsState.AddSophTransition`: the trie joins of `add_soph_transition` (consonant_inversions.py:75-97) are not modelled; only the remembered consonants are.
- `IntrabankConsonantInversions`: the trie edges built while a bank is completed (`link_chain` and `join_on_strokes` in `before_complete_consonant`) and `is_right_bank` are not modelled; the plugin hooks only feed the filter that is.
- The plugin registration functions (`plugin`, `alt_chords`, `conflict_cycler_stroke`, `declare_banks`, `floating_keys`, `consonant_inversions`, `intrabank_consonant_inversions`) only wire hooks together; the hooks' logic is modelled.
- `TheoryService`: the construction of the consonant chord table and trie (service.py:22-48) is a parameter, and `left_consonant_strokes`, `right_consonant_strokes`, `right_alt_consonant_strokes` and `sound_sophone` (service.py:88-106) are table lookups that are not modelled.
- `GenerateFromUnilex`: `generate` and `generate_from_unilex` (file reading, sorting the output, writing TOML, catching exceptions per entry) are not modelled; the per-entry conversion is. The stress-normalised key classes are a parameter.
- `GenerateFromUnilex`: `__morpheme_definition` and `__morpheme_seq_definition` build definition strings from the same pieces as the modelled varname rules and are not modelled separately.
- `GenerateFromUnilex`: the source reads `affix.is_prefix` (generate_from_unilex.py:66) and `chunk.morpheme_seq.parts` (lines 72 and 85), and calls `Keysymbol.stress_marker` (line 154), which the repository's classes do not define; the model follows the evident intent (the affix kind, the chunk's morphemes, the marker of the Rust keysymbol) rather than raising `AttributeError`.
- `GenerateFromUnilex`: a `defaultdict` lookup inserts an empty entry as a side effect of reading; the model reads without inserting.
- `IntrabankConsonantInversions`: the key that closes the left bank (a non-left key) is neither recorded nor added to the next bank in the source, and the model does the same. The plugin's hooks also read a `current_phoneme` field that the banks state (pipes/banks.py) does not declare; banks.py is not part of this model, and the phoneme is a parameter here.
- `DefinitionCursor`: the older `definition/mod.rs` dictionary and `collect_sophemes` are the same as the `defs/` versions modelled in `Defs` and `DefView`, and are covered by them. The older children cursor (`definition/cursor/iter.rs`) differs only in lacking `decr` and `new_at_end`.
- `Parse`: the Rust parser has no case for the `|` option syntax that its `keysymbol_group_option` test expects; `ParseExamples.KeysymbolOptionsRejected` states what the parser does with such a line. The error message's rendering of the cursor position is not modelled.
- `OrthoParse`: parse_orthokeysymbol.py imports an `Orthokeysymbol` class and a four-argument `Keysymbol` that Sopheme.py does not define; the model gives them the fields the parser passes. Printing each token while parsing is not modelled.
- `ParsePyExamples`: the Python parser test file compares with `Orthokeysymbol.format_seq`, which is not part of this model; the example lemmas state the parsed values directly.
- `ParseMorphology`: the input "{>}" makes the source loop forever; the model returns `Hang` there. This is stated, not corrected.
- `DefCursor.FirstConsonantFrom` and `DefCursor.LastConsonantFrom`: the walks of `first_consonant_loc` and `last_consonant_loc` take a step bound (fuel), because a cyclic dictionary would otherwise not terminate; running out of fuel returns nothing, which the source never does for an acyclic dictionary.
- `Lex.ClassOf`, `LexPy.PyClassOf`: a character counts as a letter or digit only when it is an ASCII one (`Text.IsAlphanumeric`), while lex.rs:65 uses Rust `char::is_alphanumeric` and lex_sopheme_sequence.py:40 Python `str.isalnum`, both Unicode. A non-ASCII letter such as "é" is a symbol in the model and a character in the source, so `Lex.LexSophemeSequence`, `LexPy.PyLexSophemeSequence`, `OrthoParse`, `Parse` and `ParsePy` state nothing about lines with non-ASCII letters or digits.
- `KeysymbolPy.BaseSymbol`: lower-cases ASCII capitals only (`Text.Lower`), while Keysymbol.py:90 uses Python `str.lower`, which also lower-cases non-ASCII capitals; `KeysymbolPy.IsVowel` and the consonant checks built on it inherit this.
- `TransitionFlags.TransitionFlagManager.GetLabel`: an undeclared flag index makes `get_label` panic (transition_flag_manager.rs:45); the model requires a declared index instead.
- `DeterministicTrie.Trie.Frozen`: returns a read-only trie over a copy of the trie's data. In the source, `ReadonlyTrie` keeps the very `translations` and `keys` dicts that `freeze` passes in (Trie.py:57, 97-98), so a later `set_translation` or a new key on the mutable trie shows through the frozen one; the model does not capture that sharing.
- `DefCursor.DefViewCursor`: defs/view/mod.rs (lines 156, 158, 166, 168, 184, 188) calls `DefViewCursor::of_view_at_start` and `step_forward`, which defs/cursor/mod.rs does not define (it defines `of_view` at line 18 and `step` at line 28); and cursor/mod.rs:30 calls `create_child_iter`, while cursor/iter.rs defines only `create_child_iter_at_start` and `create_child_iter_at_end` (lines 24 and 31). The Rust crate does not compile as given; the model reads these calls as `of_view`, `step` and `create_child_iter_at_start`.
- `EntryState.EntryBuilderState`: state.py:8 imports `Elider` from the `pipes` package, whose `__init__.py` does not export an `Elider` class, so the name is the `Elider` module and `field(default_factory=Elider)` (state.py:126, 129, 132) raises `TypeError` when the state is built. The model uses the `Elider` class of Elider.py, as evidently intended.
- `GenerateFromUnilex.Converter`: generate_from_unilex.py:9 imports `AffixStressNormalizedKey`, `RootStressNormalizedKey` and `MorphemeStressNormalizedKey` from parse_morphology.py, which defines none of them, so importing the module raises `ImportError`. The model takes the stress-normalised keys as a parameter, as evidently intended.
- `NondeterministicTrieRs.NondeterministicTrie.GetReverseLookupResults`: states soundness only (every result is a costed walk from the root to a node carrying the translation, with the forward lookup's cost); it does not state that every such walk with no repeated node is found.
- Concurrency: the source has none in the modelled code.

## Findings

| source | as written | input that shows it | evidently intended | confidence | as-written member | corrected member |
|---|---|---|---|---|---|---|
| plover_hatchery_lib_rs/src/trie/nondeterministic_trie.rs:920-930 | the test costs its transition for translation 0 but gives the node translation 42, so the lookup of the path reports nothing | the test's own trie: one `follow` costed for translation 0, then `set_translation` with 42 | the transition is costed for the translation the node is given, and the lookup reports it | high (not executed) | TrieExamples.SetAndGetTranslationAsWritten | TrieExamples.SetAndGetTranslationIntended |
| plover_hatchery/lib/alignment/parse_morphology.py:171-173 | a Formatting part is emitted when `morphology_index_at_last_part > morphology_index`, which never holds because the index only grows | "{a}-{b}": the hyphen between the two roots is dropped | emit the text since the last part when `morphology_index_at_last_part < morphology_index` | high (not executed) | ParseMorphology.SplitMorphologyShape | ParseMorphology.HyphenBetweenRoots |
| plover_hatchery/lib/alignment/match_sophemes.py:280-281 | the keysymbols-to-letters service declares its mapping table but does not override `has_mapping` or `get_mapping_options`, so the inherited bodies (which return nothing) make every run unmatchable | the keysymbols p t spelt "pt": both keysymbols and both letters are left unmatched | look the run up in the mapping table | high (not executed) | MatchSophemes.KeysymbolsToCharsAsWritten | MatchSophemes.KeysymbolsToChars |
| plover_hatchery/lib/alignment/match_sophemes.py:341-416 | the sophemes-to-chords service, like the letters service, declares its chord table but does not override `has_mapping` or `get_mapping_options`, so no run of sophemes is ever matched to a chord | any entry: all its sophemes and all the outline's keys come back as one unmatched steneme | look the run up in the chord table | high (not executed) | MatchSophemes.ChordsAsWrittenOneSteneme | MatchSophemes.MatchSophemesToChords |
| plover_hatchery/lib/sopheme/parse/lex_sopheme_sequence.py:20-28 | runs of symbol characters merge into one token, so ".(" and "}!" are single tokens that the parser compares with "." and "}" | with the tokens listed (see the next row), "x.(g z)" and "{v}!2" both fail to parse | every symbol character is its own token, as in the Rust lexer | medium (not executed) | ParsePyExamples.GroupRejectedWhenMerged | ParsePyExamples.GroupReadWhenSplit |
| plover_hatchery/lib/sopheme/parse/parse_sopheme_sequence.py:208-209 | `parse_entry_definition` and `parse_sopheme_seq` pass the lexer's generator straight to the line parser, whose cursor calls `len()` on it at the first `done` check, so running either raises `TypeError` | every line, such as the unit test's "a.@!2?" | list the tokens first, as the line parsers' `tuple[Token, ...]` parameters say | high (not executed) | ParsePy.PyParseSophemeSeqAsWritten | ParsePyExamples.SingleSopheme |
| plover_hatchery/lib/sopheme/parse_orthokeysymbol.py:103-119 | the states DONE_KEYSYMBOL and DONE_KEYSYMBOL_OPTIONAL_MARKER have no handler, so every token after a keysymbol is ignored | "a.b c.d" yields only "a.b" | whitespace after a keysymbol completes the sopheme | high (not executed) | OrthoParseExamples.TwoSophemesAsWritten | OrthoParseExamples.TwoSophemesCorrected |
| plover_hatchery/lib/sopheme/parse_orthokeysymbol.py:103-119 | the DONE_PHONO handler is a generator called without `yield from`, so its body never runs | "a.b) c.d" never completes "c.d" | delegate with `yield from` | high (not executed) | OrthoParseExamples.ClosedPhonoAsWritten | OrthoParseExamples.ClosedPhonoCorrected |
| plover_hatchery/lib/trie/NondeterministicTrie.py:592 | the label of the epsilon key is the mis-decoded text "(Îµ)" | any epsilon transition in the printed trie | "(ε)", as in KeyIdManager.py:28 | high (not executed) | NondeterministicTriePy.EpsilonLabelMisencoded | NondeterministicTriePy.NondeterministicTrie.GetKeyStr |
| plover_hatchery/lib/sopheme/SophemeSeq.py:81-88 | `appears_before` holds when the sopheme index is smaller or when the keysymbol index is smaller | a first sopheme with a consonant and a vowel followed by a sopheme with a consonant: the second consonant, at (1, 0), is reported as before the vowel at (0, 1) | lexicographic order of (sopheme, keysymbol) | high (not executed) | PhonemeNav.AppearsBeforeFirstVowelAsWrittenWrong | PhonemeNav.AppearsBeforeFollowsPhonemeOrder |
| plover_hatchery/lib/pipes/state.py:136-140 | `clone` copies the left-squish and boundary eliders but shares the right-squish elider with the original | setting source nodes on the clone's right-squish elider changes the original's | every elider of the clone is an independent copy | medium (not executed) | EntryState.CloneAsWrittenLeaksRightSquish | EntryState.CloneIsIndependent |
| plover_hatchery/lib/alignment/match_morphology.py:96-97 | an empty part slice builds `Formatting(None, c, c)`, but `Formatting` takes two fields, so this raises `TypeError` | a non-empty translation aligned against no parts at all | a Formatting part holding the matched letters | high (not executed) | MatchMorphology.NoPartsAsWritten | MatchMorphology.NoPartsCorrected |
| plover_hatchery/lib/alignment/match_morphology.py:147 | finishing a chunk reads `morpheme_seq.parts`, but a MorphemeSeq has `morphemes`, so this raises `AttributeError` | any alignment that contains a morpheme | read the chunk's morphemes | high (not executed) | MatchMorphology.AsWrittenReconstruct | MatchMorphology.ReconstructGroups |
| plover_hatchery/lib/pipes/intrabank_consonant_inversions.py:285 | validation calls `first_consonant()` on a SophemeSeq, which does not define it (Definition.py:30 does), so this raises `AttributeError` | two consonants of one entry written with left-bank keys in inverted order as the outline's first bank | start the walk at the sequence's first consonant | high (not executed) | IntrabankConsonantInversions.InversionWithinBankAsWrittenRaises | IntrabankConsonantInversions.InversionWithinBankAccepted |
| plover_hatchery_lib_rs/src/definition/iter.rs:59-104 | after a step out, the next step first tries to enter child 0 of the new tip, which is where the cursor has just been, so it steps In again | the entry "a.a": In, In, Out, then In, Out forever, never reaching the end | after a step out, move over to the next sibling or step out further | medium (not executed) | DefinitionCursor.OutReenters | DefinitionCursor.NextStepDataFixed |
