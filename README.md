# Sequential logic of the MEGAlib machine-learning drivers

This project models, in Dafny, the parts of three Python drivers that do
sequential bookkeeping around the machine-learning libraries they call:

- **Compton track events** (`comptontracks/EventData.py`). `EventData` is a
  record of an event ID, the depth of the first Compton scatter, and four
  per-hit arrays. `parse` fills it from a simulated event. The event must
  have more than two interactions and more than two hits, and its
  interaction 1 must be a Compton scatter ("COMP") in detector type 1. The
  ID is overwritten on every call. Otherwise only an accepted event changes
  the record: its arrays are replaced by new ones filled hit by hit.
- **Layout exploration for strip pairing** (`strippairing/explorelayouts.py`).
  This part lists one layout string "n1,n2,...,nL" for every tuple in the
  Cartesian power of {15, 20, ..., maxnodes}, in `itertools.product` order.
  It then collects the good/bad sequence performances of the layouts whose
  training succeeded and whose test passed.
- **Zenith-angle classification** (`albedoidentification/CEZA.py`):
  - `train` chooses TMVA or TensorFlow from the prefix of the algorithm
    string.
  - The TF path derives the feature list from the branch names and fills
    the feature and label tables row by row from the tree.
  - It runs the early-stopping training loop: a checkpoint every 200
    iterations, a stop after 10 checkpoints without an improvement of more
    than 0.0001, and at most 5000 iterations.
  - The TMVA path truncates the tree to `MaxEvents` entries and picks its
    input variables, spectators and signal/background cuts.
  - It then counts good and correctly identified events among the first
    100 entries.

The pieces are modelled as follows:

- **Records, entries and state.** A simulated event is a datatype of
  interactions and hits. A ROOT tree is a sequence of entries, each a map
  from branch name to value.
- **Floating-point numbers** are `real`.
- **In-place updates.** `EventData` is a class whose `parse` allocates and
  fills arrays. The table fill writes into arrays of rows. The early-stopping
  state is a class whose `CheckPerformance` updates its two fields.
- **Loops** are methods with loop invariants. Each is proved equal to a
  specification function. The properties are lemmas about those functions.
- **Foreign results are inputs.** The test losses of the network are a
  sequence of reals, one per checkpoint. The result of each layout's
  `StripPairing.train()`/`test()` is a value of the datatype `Run`.

The comparison at `CEZA.py:543` is modelled exactly as Python parses it.
`abs(v - 90 > 0.2)` is `abs((v - 90) > 0.2)`, the absolute value of a
boolean. So an event is bad only when a zenith value exceeds 90 degrees by
more than 0.2, not whenever the value is more than 0.2 away from
90. `CezaTmva.GoodnessIsOneSided` states the consequence: an entry at
45 degrees counts as good.

## Model

| member | source | states |
|---|---|---|
| ComptonTracks.ParseEvent | comptontracks/EventData.py:77-98 | The ID always becomes the event's ID. The event is rejected exactly when it has at most two interactions or at most two hits, or when interaction 1 is not "COMP" in detector type 1. A rejected event leaves all else unchanged. An accepted one gives four aligned columns holding hit i's x, y, z and energy at index i, and an origin depth equal to interaction 1's z. |
| ComptonTracks.FillColumns | comptontracks/EventData.py:81-90 | Allocates four new arrays of the hit count and fills entry i with hit i's x, y, z position and energy. |
| ComptonTracks.EventData.constructor | comptontracks/EventData.py:58-65 | A new record has ID 0, origin depth 0.0 and four empty arrays. |
| ComptonTracks.EventData.Parse | comptontracks/EventData.py:72-98 | The flag returned and the new record are those of `ParseEvent` on the old record. The four arrays keep equal length. Success installs newly allocated arrays. Failure keeps the old ones. |
| ComptonTracks.ParseAllKeepsAligned | comptontracks/EventData.py:58-65 | After any run of parses, accepted or not, the four columns of a record still have equal length. |
| ComptonTracks.ParseAllRejected | comptontracks/EventData.py:77-96 | After a run of rejected events, the record differs from its start only in carrying the ID of the last event. |
| ExploreLayouts.NodeValues | strippairing/explorelayouts.py:55 | `range(15, maxnodes + 1, 5)`. Its members and count are stated by `NodeValuesAre`, its order by `NodeValuesIncreasing`. |
| ExploreLayouts.NodeRange | strippairing/explorelayouts.py:55 | `range(start, stop, 5)` has ceil((stop-start)/5) entries, entry i being start + 5i. |
| ExploreLayouts.NodeValuesAre | strippairing/explorelayouts.py:55 | The per-layer node counts are exactly the multiples of 5 from 15 up to and including maxnodes. There are (maxnodes-15)/5+1 of them, or none when maxnodes < 15. |
| ExploreLayouts.NodeValuesIncreasing | strippairing/explorelayouts.py:55 | The node counts are strictly increasing. |
| ExploreLayouts.Product | strippairing/explorelayouts.py:55 | `list(itertools.product(values, repeat=n))`. Its size, members, completeness and order are stated by `ProductLength`, `ProductMembers`, `ProductComplete` and `ProductSorted`. |
| ExploreLayouts.ProductLength | strippairing/explorelayouts.py:55 | The product of k values with repeat n has k^n tuples. |
| ExploreLayouts.ProductMembers | strippairing/explorelayouts.py:55 | Every tuple of the product has n values, each one of the given values. |
| ExploreLayouts.ProductComplete | strippairing/explorelayouts.py:55 | Every tuple of n given values occurs in the product. |
| ExploreLayouts.ProductSorted | strippairing/explorelayouts.py:55 | With increasing values, the tuples come in strictly lexicographic order, the last position varying fastest. |
| ExploreLayouts.Decimal | strippairing/explorelayouts.py:60 | `str(n)` is a non-empty string of decimal digits with no leading zero: it starts with '0' exactly when n is 0. |
| ExploreLayouts.DecimalRoundTrip | strippairing/explorelayouts.py:60 | Reading `str(n)` back as a decimal number gives n. |
| ExploreLayouts.Layout | strippairing/explorelayouts.py:56-60 | The layout string of a tuple is empty exactly when the tuple is. |
| ExploreLayouts.LayoutCommas | strippairing/explorelayouts.py:56-60 | The layout of L >= 1 values holds exactly L-1 commas. |
| ExploreLayouts.LayoutRoundTrip | strippairing/explorelayouts.py:56-60 | Splitting a layout string at "," and reading each part as a number gives back the tuple it was built from. |
| ExploreLayouts.LayoutList | strippairing/explorelayouts.py:54-61 | The layout of every product tuple, in product order, or failure for a negative layer count. Its size, entries, order and completeness are stated by `LayoutListCount`, `LayoutListEntry`, `LayoutListOrdered` and `LayoutListComplete`. |
| ExploreLayouts.LayoutListCount | strippairing/explorelayouts.py:54-61 | For L >= 0 layers the list exists and has k^L entries. It is empty when maxnodes < 15 and L >= 1. |
| ExploreLayouts.LayoutListEntry | strippairing/explorelayouts.py:54-61 | Entry i of the list reads back as the i-th product tuple: L allowed node counts, written with L-1 commas. |
| ExploreLayouts.LayoutListOrdered | strippairing/explorelayouts.py:55-61 | An earlier layout reads back as a lexicographically smaller tuple than a later one. |
| ExploreLayouts.LayoutListComplete | strippairing/explorelayouts.py:54-61 | The layout of every combination of L allowed node counts is in the list. |
| ExploreLayouts.BuildLayout | strippairing/explorelayouts.py:56-60 | The append loop builds exactly the layout string of the tuple. |
| ExploreLayouts.BuildLayouts | strippairing/explorelayouts.py:54-61 | The outer loop lists the layout of every tuple, in tuple order. |
| ExploreLayouts.BuildLayoutList | strippairing/explorelayouts.py:54-62 | Step 1 yields `LayoutList`, or fails when the layer count is negative. |
| ExploreLayouts.KeptIndices | strippairing/explorelayouts.py:69-81 | Lists, in increasing order, exactly the positions of the runs that trained and passed their test. |
| ExploreLayouts.CollectPerformances | strippairing/explorelayouts.py:66-81 | The good and bad lists have equal length, at most the number of layouts. Their j-th entries are the two performances of the j-th kept run, in layout order. |
| CezaDispatch.Dispatch | albedoidentification/CEZA.py:60-67 | The TMVA path is chosen exactly when the string starts with "TMVA:". The TF path needs "TF:". Anything else trains nothing. |
| CezaDispatch.DispatchExact | albedoidentification/CEZA.py:60-65 | The TF path runs exactly when the string starts with "TF:". Nothing is trained exactly when the string starts with neither prefix. |
| CezaDispatch.UnknownAlgorithms | albedoidentification/CEZA.py:60-65 | "XYZ:FOO" and "TF" train nothing. "TMVA:BDT" selects TMVA and "TF:VOXNET" TensorFlow. |
| CezaTree.ZenithBranches | albedoidentification/CEZA.py:134-135 | The label branches are exactly the branches whose name starts with "EvaluationZenithAngle". |
| Sequences.RemoveFirst | albedoidentification/CEZA.py:120 | `list.remove` fails exactly when the name is absent. Otherwise it removes the first occurrence and keeps every other element, in order: the elements before it in place, those after it shifted down by one. |
| Sequences.Dedup | albedoidentification/CEZA.py:109-119 | The keys of the branch dict are each branch name once, with no duplicates, in the order of their first occurrence among the branches. |
| Sequences.RemoveEach | albedoidentification/CEZA.py:119-126 | The chain of removals succeeds only when every name removed was present, and leaves only elements of the list. `RemoveEachIsWithout` states what it leaves. |
| Sequences.RemoveEachIsWithout | albedoidentification/CEZA.py:119-126 | On distinct names, the removals succeed exactly when every name to remove is present, and leave the others in order. |
| CezaFeatures.AllFeatures | albedoidentification/CEZA.py:119-126 | When the feature list exists, all five non-feature branches are present and every feature is a branch. |
| CezaFeatures.NonFeaturesAreBookkeeping | albedoidentification/CEZA.py:120-132 | The five removed names are distinct, and each is excluded from the feature-table columns. |
| CezaFeatures.AllFeaturesAre | albedoidentification/CEZA.py:109-126 | The feature list exists exactly when all five non-feature branches are present. It is then every other branch name, once each, in branch order. |
| CezaFeatures.EventDataBranches | albedoidentification/CEZA.py:129-132 | The feature-table columns are exactly the branches not prefixed by "Evaluation", "SimulationID" or "SequenceLength", in branch order, and without duplicates when the branch names have none. |
| CezaFeatures.FeaturesAreColumns | albedoidentification/CEZA.py:119-132 | Take distinct branch names that include all five non-features, with no other bookkeeping-prefixed branch. Then the feature list equals the list of feature-table columns. |
| CezaFeatures.TotalData | albedoidentification/CEZA.py:143 | The table height is min(MaxEvents, entries). |
| CezaFeatures.RowFits | albedoidentification/CEZA.py:185 | numpy's rule for assigning a row of n values to a table row of `width` columns: the lengths agree or n is 1. `FillRows` and `BuildTables` state the failure it causes. |
| CezaFeatures.Broadcast | albedoidentification/CEZA.py:185 | A stored row has the table width and holds the new row, or its one value repeated. |
| CezaFeatures.FeatureRow | albedoidentification/CEZA.py:184 | `NewRow` holds the values of the features of one entry, in feature order. |
| CezaFeatures.LabelRow | albedoidentification/CEZA.py:186 | Every label column of a row holds the entry's zenith angle. |
| CezaFeatures.FeatureRowColumns | albedoidentification/CEZA.py:184-185 | Under the conditions of `FeaturesAreColumns`, column j of a stored row holds the entry's value for the j-th feature-table branch. |
| CezaFeatures.FillRows | albedoidentification/CEZA.py:173-186 | The row loop fails exactly when the tables are non-empty and the feature count fits neither the width nor 1. Otherwise row i of both tables holds entry i's features and zenith angle. |
| CezaFeatures.BuildTables | albedoidentification/CEZA.py:111-186 | There are three outcomes. A missing non-feature branch fails exactly when the feature list is undefined. A shape mismatch happens exactly when there are rows and the feature count fits neither the width nor 1. On success the tables have min(MaxEvents, entries) rows, and row i holds entry i's features and zenith angle. |
| CezaTraining.Checkpoint | albedoidentification/CEZA.py:268-273 | The best error never increases. The counter resets exactly on an improvement of more than 0.0001, and the new best is then that error. Otherwise only the counter grows, by one. |
| CezaTraining.After | albedoidentification/CEZA.py:257-273 | The best error and counter after the first n checkpoints. `BestErrorNeverIncreases`, `CounterIsStreak` and `BestErrorNearMinimum` state what they hold. |
| CezaTraining.BestErrorNeverIncreases | albedoidentification/CEZA.py:268-273 | The best error after a later checkpoint is at most that after an earlier one. |
| CezaTraining.CounterIsStreak | albedoidentification/CEZA.py:268-273 | The counter is the number of consecutive non-improving checkpoints since the last improving one. |
| CezaTraining.BestErrorNearMinimum | albedoidentification/CEZA.py:268-273 | The best error is within 0.0001 of every test error seen. It is either the initial `float_info.max` or one of those errors. |
| CezaTraining.RunFrom | albedoidentification/CEZA.py:276-300 | The loop ends before iteration 5000 and never by interruption. An early stop happens at a positive multiple of 200, with the counter at 10 and the state after that many checkpoints. Running out ends at iteration 4999 after all 24 checkpoints. The loop stops early exactly when some checkpoint brings the counter to 10, and then at the first such checkpoint. |
| CezaTraining.Run | albedoidentification/CEZA.py:276-300 | The whole loop from iteration 0. `RunFrom` with k = 0 states how and where it ends: at the first checkpoint whose counter reaches 10, or at iteration 4999 when none does. `ConvergesNotBefore2000` and `NeverStopsWhileImproving` add when early stopping can happen. |
| CezaTraining.ConvergesNotBefore2000 | albedoidentification/CEZA.py:294-300 | Early stopping happens at an iteration between 2000 and 4800. |
| CezaTraining.NeverStopsWhileImproving | albedoidentification/CEZA.py:268-300 | If the test error falls by more than 0.0001 at every checkpoint, the loop runs to iteration 4999 with the last error as its best. |
| CezaTraining.EarlyStopping.constructor | albedoidentification/CEZA.py:257-258 | The best error starts at `float_info.max` and the counter at 0. |
| CezaTraining.EarlyStopping.CheckPerformance | albedoidentification/CEZA.py:260-273 | The new state is one `Checkpoint` step from the old, with the given test error. |
| CezaTraining.TrainingLoop | albedoidentification/CEZA.py:257-300 | The final loop variable, how the loop ended and the best error are those of `Run`. |
| CezaTmva.Limited | albedoidentification/CEZA.py:347-356 | The truncated tree is a prefix of the tree with min(MaxEvents, entries) entries. It is the tree itself when the tree is small enough. |
| CezaTmva.LimitEvents | albedoidentification/CEZA.py:347-356 | The copy loop yields exactly the truncated tree. |
| CezaTmva.Variables | albedoidentification/CEZA.py:376-385 | The input variables are exactly the branches that are neither spectators nor prefixed "Evaluation". The spectators and the zenith angle are never variables. |
| CezaTmva.VariablesAreFeatureColumns | albedoidentification/CEZA.py:382-385 | When only the two spectators carry their prefixes, the TMVA variables equal the TF feature-table columns, in order. |
| CezaTmva.CutsPartition | albedoidentification/CEZA.py:387-388 | On entries with a zenith angle, the signal and background cuts split the tree: no entry passes both, and their counts add up to the entries. |
| CezaTmva.IsBadValue | albedoidentification/CEZA.py:543 | The comparison as Python evaluates it: a value is bad when it exceeds 90 by more than 0.2. `GoodnessIsOneSided` states its consequences. |
| CezaTmva.IsGoodEvent | albedoidentification/CEZA.py:537-547 | An entry is good when no branch prefixed "EvaluationZenithAngle" holds a bad value. `JudgeEvent` is proved equal to it and `GoodnessIsOneSided` characterises it. |
| CezaTmva.CountGood | albedoidentification/CEZA.py:537-548 | The number of good events among the first n is at most n. |
| CezaTmva.CountGoodExtremes | albedoidentification/CEZA.py:537-548 | All n events are counted exactly when all are good, and none exactly when none is good. |
| CezaTmva.GoodnessIsOneSided | albedoidentification/CEZA.py:540-544 | With one zenith branch, an event is good exactly when its zenith angle is at most 90.2. Every background event and every signal event within 0.2 of 90 is good. 45 is not a bad value and 90.3 is. |
| CezaTmva.JudgeEvent | albedoidentification/CEZA.py:537-544 | The branch loop marks an entry good exactly when no zenith-prefixed branch holds a bad value. |
| CezaTmva.EvaluateEvents | albedoidentification/CEZA.py:511-559 | NEvents is min(100, entries). NGoodEvents counts the good events among them. NLearnedCorrectEvents equals NGoodEvents, which is at most NEvents. The ratio is undefined exactly when the tree is empty. Otherwise it is NLearnedCorrectEvents / NEvents and lies in [0, 1]. |
| CezaTmva.TmvaPath | albedoidentification/CEZA.py:511-559 | After truncation the loop sees min(100, MaxEvents, entries) events and counts the good ones among the tree's first entries. The correct count equals the good count. The ratio is undefined exactly when the tree is empty or MaxEvents is 0. Otherwise it is NLearnedCorrectEvents / NEvents and lies in [0, 1]. |

## Left out

- ROOT file and tree access (opening, `Get`, `SetBranchAddress`, `GetEntry`, `CloneTree`/`Fill`). It is I/O; a tree is a sequence of entries, and a missing file or tree is not modelled.
- `BuildTables`: the TF path binds the zenith branch to an integer buffer and every other branch to a float32 buffer (`CEZA.py:112-116`). The model stores each value as the branch's real value, without that conversion.
- TensorFlow graph construction, the optimiser, the loss and the final accuracy (`CEZA.py:206-311`). These are foreign numerics; the test loss of each checkpoint is an input.
- `TrainingLoop`: the training step and its loss are not modelled. The method takes at least 24 test losses, one per checkpoint the loop can reach.
- `train_test_split` (`CEZA.py:199`). It is a library shuffle whose result the model does not use.
- TMVA booking, training, testing, the reader and `EvaluateMVA` (`CEZA.py:359-509, 527`). These are foreign calls, and the learned label is never used.
- The batch-size arithmetic, timing and progress printing (`CEZA.py:149-157, 175-180, 255, 302-304`). These are floats and observability with no effect on the result.
- All plotting (`CEZA.py:561-624`, `explorelayouts.py:84-90`), `EventData.print`, `input()`/`sys.exit`, and the MEGAlib library loading. These are UI and I/O.
- The unused `varx`, `vary` and `r` of the evaluation loop. They are appended to or counted but never read for the counts.
- Command-line parsing in both drivers. `MaxEvents` is a natural number, so a negative value and its numpy or ROOT errors are not modelled.
- `StripPairing` internals. That class is not part of this model; each layout's outcome is a `Run` value.
- Floating-point rounding: all values are reals.

