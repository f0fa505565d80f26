# Verified models of the V-Ray for Houdini cores

V-Ray for Houdini is mostly glue between two SDKs. This project models the components that keep
state, transform logic or do arithmetic in their own code, and proves what they are for:

- **LRU cache and reference-counted sequence cache.** `Recency.dfy` is the abstract cache: a recency
  list beside a map. `LruCache.dfy` is the class with its queue of nodes, hash map and back pointers.
  `CacheList.dfy` stores sequences as lists of item keys over two such caches and shares items by
  reference count. The `...Runs.dfy` files, `CacheListFits.dfy` and `CacheListWhole.dfy` hold the laws of
  whole runs.
- **UI condition compiler.** `Conditionals.dfy` gives Houdini conditional text a reader and a meaning.
  `EnableConditions.dfy` compiles an OR of ANDs into "disable when" groups, `WidgetConditions.dfy`
  the conditions of nested widgets. `UiGuides.dfy` is the bracket parser, `EnableGuides.dfy`
  with `GuideTexts.dfy` the parser of an `enable` guide that feeds the first compiler.
- **MurmurHash3 for 32-bit words** (`Murmur3.dfy`), the hash behind the cache keys.
- **Incremental view export** (`ViewParameters.dfy`, `ViewExport.dfy`, `ViewRuns.dfy`).
- **Motion-blur sub-frame scheduling** (`MotionBlur.dfy`, `MotionBlurRuns.dfy`).
- **Parameter list builder** (`PrmTrees.dfy`, `PrmList.dfy`, `PrmListRuns.dfy`): a flat array that is
  the pre-order encoding of a tree.
- **Detail cache** (`DetailCache.dfy`, `DetailCacheRuns.dfy`), **primitive context stack**
  (`Transforms.dfy`, `PrimContexts.dfy`), **preview face decimation** (`PreviewFaces.dfy`),
  **Phoenix cache frames** (`PhxFrames.dfy`) and the **log thread** (`LogThread.dfy`).

An object that the program updates in place is a class. Each of its methods is proved equal to a
function on the abstract state, and the laws are lemmas about those functions and about runs of them.

## Conventions

- `float` and `fpreal` are real numbers, and comparisons with a tolerance are exact equality.
  Integers are unbounded except where a word size matters: Murmur words and bytes, context ids, and
  the decrement of the reference count, which is unsigned and wraps at zero.
- A list iterator is the identity of a queue node: back pointers are followed by identity, and the
  proofs establish that they reach the right node.
- The evict callback is known by identity, and an evicted entry is handed to the owner instead. A write through a
  reference that `operator[]` returned is `LRUCache.SetValue`.
- Hash functions, the detail builder, the SDK's clearing rule and the reading of one value are
  parameters. Where a law needs a hash to be injective on the items in use, it says so.
- Houdini compares numbers with numbers and strings with strings. The model orders all values,
  numbers by size (`Conditionals.NumbersCompare`) before strings, so that an operator and its opposite
  are complements.
- Assertions of the program are preconditions where they guard a call, and a failing result where
  input text can trigger them.

## What the proofs show about the code

Where a promise does not hold as it stands, the project proves when exactly it does.

- **Sequence cache.** It answers rightly in all runs exactly if the item hash is injective on the items used
  (`CacheListRuns.RightInAllRunsIffInjective`). A sequence just stored is found again exactly
  when its distinct item keys fit the item capacity (`CacheListFits.InsertedIsFoundIffFits`). While
  everything fits, reference counts are exact and the cache answers like a plain map
  (`CacheListWhole.PlainMapWhileItFits`).
- **`addHouConditional2`.** With an empty list of clauses nothing is disabled although no clause
  holds (`EnableConditions.CompileMeans`); its only caller excludes that list. The condition
  dictionaries keep their negated operators, so compiling one description twice disables too
  much (`EnableConditions.CompilingAgainMeans`).
- **`getCondition`.** It looks at the first of `active`, `show` and `visible` only, even when an
  `active` condition names no parameter. A failing `show` condition beside an `active` one on the same item
  does not hide the parameter (`WidgetConditions.ShadowedShowIsLost`); `WidgetConditions.HideWhenMeans` gives
  the exact condition.
- **`parseCondition`.** `<=` and `>=` are never recognised, since the pattern tries `<` and `>`
  first; the equals sign ends up in the value (`EnableGuides.ParseOfWritten`). A decimal number is
  split at its dot, so that its comparison is dropped, or fails an assertion when an owner is given
  (`EnableGuides.DecimalsAreLost`).
- **`exportView`.** The renderer equals a fresh export exactly while every step is covered in the
  sense of `ViewRuns.Covered`. Not covered are: a change of a physical camera that is not in use, which makes that
  camera the active one; a change of projection without a physical camera; a change of the image's shape
  or of the target flag without another camera change; and stereo settings that the compared
  parameters leave out.
- **`exportFrame`.** With a blur duration of zero the sub-frame never advances
  (`MotionBlur.ZeroDurationNeverEnds`). Every needed keyframe is retained if clearing up to a time
  spares that time. If frames go to separate files and clearing takes the time itself, a keyframe is missing exactly
  when an earlier frame needed the shutter's start (`MotionBlurRuns.EveryFrameIsRetained`), as with
  two shutters that meet (`MotionBlurRuns.MeetingShuttersLoseAKey`).
- **Detail cache.** `cleanResource` also waits for pairs that were only asked for and never
  registered (`DetailCacheRuns.CleanMeansUnregistered`, `DetailCacheRuns.AskedPairKeepsResource`).
- **Context stack.** The composed velocity starts from a zero transform, so it keeps the offset of the
  product of the velocities without the matrix (`PrimContexts.VelocityIsProductIff`). The velocities in the
  contexts of `vfh_export_geom.cpp` have no matrix, and so the outermost one hides all others. Object
  contexts carry none: the velocity of a packed primitive, written at line 827 and read back at line 886, is lost
  (`PrimContexts.PrimitiveVelocityIsLost`, `PrimContexts.OwnVelocityIff`). The detail id is called unique, but
  swapped levels and pairs of equal ids collide (`PrimContexts.SwappedLevelsCollide`,
  `PrimContexts.EqualIdentifiersCancel`).
- **`evalCacheFrame`.** Both ends of the loop interval can result; they stand for the same position
  (`PhxFrames.WrapUnique`).
- **Log thread.** When the thread ends, exactly the messages enqueued after its last batch stay in the
  queue (`LogThread.UnloggedIsEnqueuedAfterLastBatch`): `run` does not empty the queue before it ends
  (`LogThread.EndingDoesNotDrain`). A producer that tests the flag before it takes the lock can also come too late
  (`LogThread.StoppingLeavesMessageBehind`).

## Model

| member | source | states |
|---|---|---|
| Recency.RecentOrdersByLastUse | src/utils/vfh_lru_cache.hpp:207-232 | the reference list of a run of accesses holds exactly the accessed keys, once each, latest use first |
| Recency.AccessRunHoldsMostRecent | src/utils/vfh_lru_cache.hpp:207-232 | driven by operator[] alone, the cache holds exactly the capacity most recently used keys, in order of last use |
| Recency.LargerCacheIncludesSmaller | src/utils/vfh_lru_cache.hpp:207-232 | for the same run of operator[] a larger cache always contains what a smaller one does |
| Recency.ShrinkKeepsMostRecent | src/utils/vfh_lru_cache.hpp:157-164 | lowering the capacity keeps exactly the most recently used keys, with their values |
| RecencyRuns.RunOrdersByLastUse | src/utils/vfh_lru_cache.hpp:157-321 | over any run of operator[], insert, find, update, erase, setCapacity, evict and clear the queue lists exactly the cached keys by last use, latest first |
| RecencyRuns.EvictsLeastRecentlyUsed | src/utils/vfh_lru_cache.hpp:295-314 | in every reachable state eviction removes the key whose last use is oldest and no other |
| RecencyRuns.StepMeans | src/utils/vfh_lru_cache.hpp:157-321 | one operation key by key: how many keys are left, which may enter, that those leaving were used longer ago than all that stay, and the values of the keys that stay |
| LruCaches.LinkedIsWf | src/utils/vfh_lru_cache.hpp:345-347 | a queue and a map in step make a well-formed abstract cache: distinct keys, equal to the map's domain, at most capacity many |
| LruCaches.UnlinkKey | src/utils/vfh_lru_cache.hpp:246-249 | erasing through the back pointer of a key takes exactly that key out and keeps queue and map in step |
| LruCaches.SpliceKey | src/utils/vfh_lru_cache.hpp:213-214 | splicing through the back pointer of a key moves exactly that key to the front and keeps every back pointer right |
| LruCaches.LRUCache.constructor | src/utils/vfh_lru_cache.hpp:105-109 | a new cache is empty with the given capacity |
| LruCaches.LRUCache.SetFetchCallback | src/utils/vfh_lru_cache.hpp:142-144 | only the callback changes |
| LruCaches.LRUCache.SetEvictCallback | src/utils/vfh_lru_cache.hpp:145-147 | only that callback changes |
| LruCaches.LRUCache.ValidIsWf | src/utils/vfh_lru_cache.hpp:345-347 | every valid cache object has a well-formed abstract value |
| LruCaches.LRUCache.Contains | src/utils/vfh_lru_cache.hpp:170-174 | tells whether the key is cached and changes nothing |
| LruCaches.LRUCache.Insert | src/utils/vfh_lru_cache.hpp:181-200 | a cached key is left alone; a new one goes to the front, evicting the last key exactly when the cache is full |
| LruCaches.LRUCache.PushNew | src/utils/vfh_lru_cache.hpp:189-198 | makes room when full and puts the new key in front, keeping queue and map in step |
| LruCaches.LRUCache.Access | src/utils/vfh_lru_cache.hpp:207-232 | returns the value and makes the key most recent; a missing key is created with the fetched or default value |
| LruCaches.LRUCache.Erase | src/utils/vfh_lru_cache.hpp:238-252 | takes out the key and nothing else, and reports whether it was there |
| LruCaches.LRUCache.Find | src/utils/vfh_lru_cache.hpp:258-271 | returns the value if cached and makes the key most recent |
| LruCaches.LRUCache.Update | src/utils/vfh_lru_cache.hpp:278-292 | replaces the value of a cached key and makes it most recent; a missing key stays missing |
| LruCaches.LRUCache.Evict | src/utils/vfh_lru_cache.hpp:295-314 | hands out and removes the last entry of the queue |
| LruCaches.LRUCache.SetCapacity | src/utils/vfh_lru_cache.hpp:157-164 | evicts from the end of the queue until the contents fit, handing the entries out in that order |
| LruCaches.LRUCache.Clear | src/utils/vfh_lru_cache.hpp:317-321 | the cache is empty, its capacity kept |
| LruCaches.LRUCache.Redirect | src/utils/vfh_lru_cache.hpp:331-336 | whatever the back pointers were, they end up pointing at the queue, contents unchanged |
| LruCaches.LRUCache.MoveFrom | src/utils/vfh_lru_cache.hpp:122-132 | two caches trade capacity, contents, recency and both callbacks, and both stay valid even if the queue nodes were copied |
| CacheLists.CacheList.constructor | src/utils/vfh_lru_cache.hpp:397-404 | a new cache list is empty, both inner caches with the given capacity |
| CacheLists.CacheList.SetCapacity | src/utils/vfh_lru_cache.hpp:418-424 | shrinks the items first, then the sequences, releasing the items of every evicted sequence |
| CacheLists.CacheList.Contains | src/utils/vfh_lru_cache.hpp:431-448 | true exactly when the key and all its items are cached; otherwise a stale sequence is erased |
| CacheLists.CacheList.Retain | src/utils/vfh_lru_cache.hpp:475-484 | one more reference to a known item, or a new item with count one |
| CacheLists.CacheList.Fill | src/utils/vfh_lru_cache.hpp:464-485 | stores the item keys in order and takes one reference per occurrence |
| CacheLists.CacheList.Insert | src/utils/vfh_lru_cache.hpp:457-488 | refuses a sequence that is fully cached; otherwise stores it, evicting the least recent sequence when full |
| CacheLists.CacheList.Erase | src/utils/vfh_lru_cache.hpp:494-504 | releases the items of the sequence and takes it out |
| CacheLists.CacheList.Find | src/utils/vfh_lru_cache.hpp:510-529 | returns the items of the sequence in order exactly when all are cached |
| CacheLists.CacheList.Update | src/utils/vfh_lru_cache.hpp:536-569 | releases the old items of a cached key and stores the new sequence |
| CacheLists.CacheList.Clear | src/utils/vfh_lru_cache.hpp:572-576 | both caches are empty |
| CacheLists.CacheList.EvictSequence | src/utils/vfh_lru_cache.hpp:586-597 | drops one reference per occurrence and erases items whose count reaches zero |
| CacheListRuns.RetainAllKeeps | src/utils/vfh_lru_cache.hpp:468-485 | storing a sequence keeps every count between one and the number of occurrences, despite evictions on the way |
| CacheListRuns.ReleaseAllKeeps | src/utils/vfh_lru_cache.hpp:586-597 | releasing a sequence keeps the count bounds for the sequences that remain |
| CacheListRuns.StepKeeps | src/utils/vfh_lru_cache.hpp:418-597 | every operation keeps the invariant: well-formed caches, counts in bounds, items that hash to their key, keys recorded as last stored |
| CacheListRuns.RunKeeps | src/utils/vfh_lru_cache.hpp:418-597 | the invariant holds after every run |
| CacheListRuns.NeverAnswersWrongly | src/utils/vfh_lru_cache.hpp:431-597 | after any run, what find returns under a key is the sequence last stored there, for a hash injective on the items used |
| CacheListRuns.RightInAllRunsIffInjective | src/utils/vfh_lru_cache.hpp:431-597 | a cache list of any capacity answers rightly in all runs over given items exactly if the hash is injective on them |
| CacheListRuns.EqualHashesMerge | src/utils/vfh_lru_cache.hpp:472-484 | two items of one hash in a sequence are both found as the first of them |
| CacheListRuns.CountsAreSound | src/utils/vfh_lru_cache.hpp:475-597 | in every reachable state a cached item's count is at least one and at most its occurrences over all cached sequences |
| CacheListRuns.NoOrphans | src/utils/vfh_lru_cache.hpp:586-597 | every cached item belongs to some cached sequence |
| CacheListRuns.ErasingEverySequenceEmptiesItems | src/utils/vfh_lru_cache.hpp:494-504 | erasing every cached sequence leaves the item cache empty |
| CacheListWhole.NothingIsLost | src/utils/vfh_lru_cache.hpp:418-597 | over any run with room for all items in use, every cached sequence is found exactly as it was last stored |
| CacheListWhole.ErasingKeepsOthers | src/utils/vfh_lru_cache.hpp:494-597 | in every such state erasing a sequence leaves what find returns under every other key as it was, whatever items they share |
| CacheListWhole.PlainMapWhileItFits | src/utils/vfh_lru_cache.hpp:418-597 | with room for all keys and items in use, find returns after any run exactly what a plain map would hold |
| CacheListFits.RetainAllInFront | src/utils/vfh_lru_cache.hpp:468-485 | items already processed stay at the front of the queue, out of reach of the loop's evictions |
| CacheListFits.AllCachedIffFits | src/utils/vfh_lru_cache.hpp:468-485 | after the loop all items of the sequence are cached exactly when its distinct keys fit the capacity |
| CacheListFits.InsertedIsFoundIffFits | src/utils/vfh_lru_cache.hpp:457-529 | in every reachable state a successful insert is followed by a find of that very sequence exactly when its distinct keys fit |
| CacheListFits.UpdatedIsFoundIffFits | src/utils/vfh_lru_cache.hpp:510-569 | the same for update |
| CacheListFits.FindMakesRecent | src/utils/vfh_lru_cache.hpp:431-529 | a sequence that is found becomes the most recent one, and its items the most recent items |
| CacheListFits.StoringMakesRecent | src/utils/vfh_lru_cache.hpp:457-569 | a stored sequence becomes the most recent one |
| CacheListFits.ReleasedIsRecent | src/utils/vfh_lru_cache.hpp:586-597 | an item that keeps a reference becomes the most recent one when another is released |
| CacheListFits.SetCapacityKeepsRecentItems | src/utils/vfh_lru_cache.hpp:418-424 | no item is left but the most recent of those there were, at most the new capacity many |
| Conditionals.GetAsHouConditionalList | tools/prmtranslator/houprm.py:951-983 | one comparison per value, of the parameter named owner_parm, without an owner prefix_parm, and parm alone without both; true is written 1 and false 0, other values as they are |
| Conditionals.ReadOfRendered | tools/prmtranslator/houprm.py:1054-1064 | reading the brace groups back gives the groups that were written |
| Conditionals.OccurrenceIsGroup | tools/prmtranslator/houprm.py:1057-1058 | a group's text can be found in a conditional only where that very group was written |
| Conditionals.AddGroupsMeans | tools/prmtranslator/houprm.py:1002-1013 | adding the groups that are not yet in the text makes it hold exactly when it did before or an added group holds |
| EnableConditions.ConvertCond | tools/prmtranslator/houprm.py:1016-1038 | the dictionary's operator is replaced by its negation, its value wrapped into a list |
| EnableConditions.NegatedMeans | tools/prmtranslator/houprm.py:1016-1038 | the negated comparison holds exactly when the original does not, for all six operators |
| EnableConditions.NegatingTwiceRestores | tools/prmtranslator/houprm.py:1016-1038 | negating twice gives an operator back exactly when it is one of the six |
| EnableConditions.ExtendEach | tools/prmtranslator/houprm.py:1045-1050 | every group so far extended by one comparison, after those already made |
| EnableConditions.DistributeClause | tools/prmtranslator/houprm.py:1043-1052 | the groups times the negated literals of the clause; every literal is negated in place |
| EnableConditions.DistributeMembers | tools/prmtranslator/houprm.py:1043-1052 | a group is made exactly when it is an earlier group followed by one literal of the clause |
| EnableConditions.DistributeAt | tools/prmtranslator/houprm.py:1043-1052 | where each group stands: by literal, and within one literal in the order the groups had |
| EnableConditions.GroupsAreChoices | tools/prmtranslator/houprm.py:1041-1052 | the groups are exactly the choices of one negated literal from each clause |
| EnableConditions.ExpandMeans | tools/prmtranslator/houprm.py:1041-1052 | some group holds exactly when no clause of the enabled condition holds |
| EnableConditions.AddHouConditional2 | tools/prmtranslator/houprm.py:1041-1064 | the new text is the compiled one, and every dictionary is left converted |
| EnableConditions.CompileMeans | tools/prmtranslator/houprm.py:1041-1064 | the compiled text holds exactly when the old one did or the enabled condition is false, if and only if there is a clause or the old text holds anyway |
| EnableConditions.CompilingAgainMeans | tools/prmtranslator/houprm.py:1016-1064 | what a second compile of the same description adds: disabled also when every clause has a satisfied literal |
| WidgetConditions.GetCondition | tools/prmtranslator/pluginutils.py:461-531 | the translated condition of an item: first of active, show, visible; reversed operator; several values as one list |
| WidgetConditions.TranslatedMeans | tools/prmtranslator/pluginutils.py:461-531 | the groups of a translated condition hold exactly when the condition it was made from fails, as the condition names say it: for all operators, bools, and in and not_in over lists |
| WidgetConditions.AddHouConditional | tools/prmtranslator/houprm.py:986-1013 | adds the groups of all conditions: one group per condition, or one per value for not_in |
| WidgetConditions.AddCondition | tools/prmtranslator/pluginutils.py:534-556 | exactly the conditions of each type are appended under the parameter, everything else unchanged |
| WidgetConditions.AddJSONItemConditions | tools/prmtranslator/pluginutils.py:559-574 | each named, known attribute receives the enclosing conditions and its own |
| WidgetConditions.AddWidget | tools/prmtranslator/pluginutils.py:586-593 | a widget's own attributes and those of its splits are gathered with all conditions that enclose them |
| WidgetConditions.GetJSONParmConditions | tools/prmtranslator/pluginutils.py:577-595 | the dictionary holds, for every known parameter and type, exactly the conditions of its occurrences in order |
| WidgetConditions.OccurrencesMean | tools/prmtranslator/pluginutils.py:577-595 | an attribute occurs exactly as an own attribute of some widget, under the conditions of the widget and its own, or in some split, under those of the widget, the split and its own |
| WidgetConditions.GatheredMeans | tools/prmtranslator/pluginutils.py:559-595 | the gathered conditions of a type hold, together, exactly when some enclosing active condition fails, or for hiding some show condition that no other condition of its item shadows |
| WidgetConditions.AdjustParmConditionals | tools/prmtranslator/houprm.py:1067-1084 | both conditionals receive the gathered conditions, and "disable when" the compiled guide as well if there is one |
| WidgetConditions.DisableWhenMeans | tools/prmtranslator/houprm.py:1067-1084 | a parameter's compiled "disable when" holds exactly when it did before, the active condition of some widget, split or attribute around an occurrence of it fails, or its enabled condition is false |
| WidgetConditions.HideWhenMeans | tools/prmtranslator/pluginutils.py:461-595 | the compiled "hide when" holds exactly when it did before or a show condition in force fails on some widget, split or attribute around an occurrence; it holds for every failing one exactly unless the only failing ones are shadowed |
| WidgetConditions.SomeShowFailsInForceOrShadowed | tools/prmtranslator/pluginutils.py:462-471 | a show or visible condition that fails is either in force or shadowed by one that is looked at first |
| WidgetConditions.ShadowedShowIsLost | tools/prmtranslator/pluginutils.py:462-471 | the failing family: beside any active condition a failing show condition leaves the parameter shown |
| UiGuides.GetBracketSubstr | tools/prmtranslator/uiguides.py:4-14 | the loop cuts the text at the first position whose brackets go below zero |
| UiGuides.BracketSubstrMeans | tools/prmtranslator/uiguides.py:4-14 | the cut is exactly at the first unmatched closing bracket; without one the text is kept whole |
| UiGuides.BracketSubstrOfBody | tools/prmtranslator/uiguides.py:4-14 | a balanced body followed by a closing bracket is recovered |
| UiGuides.NormalizedToken | tools/prmtranslator/uiguides.py:272-279 | six replacements take out every special character and keep every other one as often as it stood there |
| UiGuides.ParseUIGuides | tools/prmtranslator/uiguides.py:257-340 | terminates on every text; the dictionary holds the parsed entries, later ones winning |
| UiGuides.KeysOfTokens | tools/prmtranslator/uiguides.py:292-338 | the attribute set by each of the sixteen tokens |
| UiGuides.KeysAreApart | tools/prmtranslator/uiguides.py:292-338 | no two tokens set the same attribute |
| UiGuides.EntryWithoutBrackets | tools/prmtranslator/uiguides.py:281-290 | a body without brackets is the whole rest of the text |
| UiGuides.EntriesOfWrite | tools/prmtranslator/uiguides.py:264-290 | one pass of the loop takes exactly one written entry off the text |
| UiGuides.ParseRecoversEntries | tools/prmtranslator/uiguides.py:257-290 | from any text of name=(body) entries with separator-free names and balanced bodies the parser recovers exactly the pairs, in order |
| EnableGuides.ParseClause | tools/prmtranslator/uiguides.py:119-123 | the comparisons recognised in one clause, or a failure as soon as one fails |
| EnableGuides.ParseEnable | tools/prmtranslator/uiguides.py:109-128 | the clauses in which something was recognised, or a failure |
| EnableGuides.OrListIsWellFormed | tools/prmtranslator/uiguides.py:109-128 | whatever the text, no parsed clause is empty and no operator is other than ==, !=, < and > |
| EnableGuides.ClauseIgnoresPadding | tools/prmtranslator/uiguides.py:73-106 | blanks around a clause make no difference to the comparisons recognised in it |
| EnableGuides.BracketIsIgnored | tools/prmtranslator/uiguides.py:109-114 | a bracket anywhere in an enable guide makes no difference to what is parsed |
| EnableGuides.ParseOfWritten | tools/prmtranslator/uiguides.py:72-106 | a comparison written with blanks anywhere around its parts is recovered exactly when its operator is not <= or >=, and what those become |
| EnableGuides.DecimalsAreLost | tools/prmtranslator/uiguides.py:75-92 | a comparison with a decimal number is dropped, or fails when it has an owner |
| EnableGuides.EnableOfWritten | tools/prmtranslator/uiguides.py:109-128 | a written OR of ANDs, blanks included, is given back exactly when it has no <= or >=, and what is given in general |
| EnableGuides.ParsedGuideMeans | tools/prmtranslator/uiguides.py:109-128 | for every text that parses, the compiled conditional holds exactly when it did before or the recognised condition is false |
| EnableGuides.WrittenGuideMeans | tools/prmtranslator/uiguides.py:257-340 | from the text of any written guide to the compiled conditional: the last enable entry disables the parameter exactly when its condition, as it is read, is false; without <= and >= that is the written one |
| Murmur3.MurmurHash3X86_32 | src/utils/vfh_hashes.cpp:90-144 | the loop, the fall-through tail and the finalisation compute the specified hash |
| Murmur3.HashesWithoutBlocks | src/utils/vfh_hashes.cpp:90-144 | the hashes of the empty key under three seeds and of "abc", as literals |
| Murmur3.HashesWithBlock | src/utils/vfh_hashes.cpp:90-144 | the hashes of "test" and "abcdefg", as literals |
| Murmur3.Fmix32Injective | src/utils/vfh_hashes.cpp:64-73 | finalisation is injective |
| Murmur3.MixKInjective | src/utils/vfh_hashes.cpp:112-114 | mixing a block is injective |
| Murmur3.MixHInjective | src/utils/vfh_hashes.cpp:116-118 | one round is injective in the block for a fixed hash and in the hash for a fixed block |
| Murmur3.BlockInjective | src/utils/vfh_hashes.cpp:106-110 | equal block words come from equal bytes |
| Murmur3.TailWordInjective | src/utils/vfh_hashes.cpp:126-133 | equal tail words come from equal tails |
| Murmur3.BodyKeepsApart | src/utils/vfh_hashes.cpp:108-119 | a difference in one block is carried through every later block |
| Murmur3.NoCollisionWithinOneWindow | src/utils/vfh_hashes.cpp:90-144 | keys of equal length that differ only inside one 4-byte block or the tail collide exactly when they are equal |
| Murmur3.SeedsNeverCollide | src/utils/vfh_hashes.cpp:90-144 | for any key, two seeds give the same hash exactly when they are equal |
| ViewParameters.SamePhysicalMeans | src/export/vfh_export_view.cpp:743-790 | the camera test is equality of every field but the target flag and distance |
| ViewParameters.SameRenderViewMeans | src/export/vfh_export_view.cpp:792-804 | the view test is equality of everything but the stereo parameters |
| ViewParameters.NeedsResetMeans | src/export/vfh_export_view.cpp:707-715 | the view is rebuilt exactly when the mode, a setting other than the camera's own field of view or the use of stereo changes, or another compared stereo parameter while stereo is used |
| ViewExport.ViewExporter.constructor | src/export/vfh_exporter.cpp:1941-1942 | no plugin, no camera, and nothing exported yet |
| ViewExport.ViewExporter.DeleteViewPlugins | src/export/vfh_export_view.cpp:583-592 | exactly the view plugins are gone |
| ViewExport.ViewExporter.ExportViewPlugins | src/export/vfh_export_view.cpp:594-613 | all view plugins and the active camera of a full export |
| ViewExport.ViewExporter.ExportView | src/export/vfh_export_view.cpp:554-660 | rebuilds, patches or skips, stores the parameters and keeps the image size in step |
| ViewRuns.FreshIsExpected | src/export/vfh_export_view.cpp:594-613 | plugin by plugin, what a first export leaves, and which camera it makes active |
| ViewRuns.PhysicalPluginShows | src/export/vfh_export_view.cpp:445-518 | the exported camera has the attributes of the view's camera; its vertical offset is a share of the image height, halved for stereo |
| ViewRuns.FreshShows | src/export/vfh_export_view.cpp:343-518 | which plugins a first export leaves, and every attribute of each in terms of the request alone |
| ViewRuns.SessionShows | src/export/vfh_export_view.cpp:554-660 | after any covered session the renderer shows the latest request in those terms |
| ViewRuns.OffsetsAgree | src/export/vfh_export_view.cpp:487-493 | two image sizes give the same vertical offset exactly when it is zero or the images have the same shape |
| ViewRuns.PatchAgreesIffCovered | src/export/vfh_export_view.cpp:615-631 | starting in agreement, an update without a reset equals a fresh export exactly when it is covered |
| ViewRuns.StepAgrees | src/export/vfh_export_view.cpp:554-660 | one call keeps the agreement exactly when it re-exports everything or is covered |
| ViewRuns.SessionAgrees | src/export/vfh_export_view.cpp:554-660 | after any covered series of calls the plugins and camera are those of a fresh export of the latest parameters |
| ViewRuns.AlwaysAgreesIffCovered | src/export/vfh_export_view.cpp:554-660 | the renderer shows a fresh export after every call exactly when every step is covered |
| ViewRuns.UsualSessionAgrees | src/export/vfh_export_view.cpp:554-660 | enough are: image size, projection, target flag, resolution adjustment and the node's stereo settings fixed, and camera changes only while the camera is in use |
| ViewRuns.UnusedCameraChangeTakesOver | src/export/vfh_export_view.cpp:616-624 | changing the film width of an unused physical camera makes it the active camera |
| MotionBlur.MotionBlurParams.CalcParams | src/export/vfh_exporter.cpp:2065-2069 | the middle of the interval is the frame plus the duration times the interval center, its length the duration, and the increment times the gaps between samples the duration |
| MotionBlurRuns.ShutterAboutFrame | src/export/vfh_exporter.cpp:2065-2069 | an interval center of one half opens the shutter at the frame, of minus one half closes it there |
| MotionBlurRuns.SamplesInNumbers | src/export/vfh_exporter.cpp:2065-2069 | the samples run in equal steps from the start of the shutter to its end, the last regular one landing on it; there are two at least |
| MotionBlurRuns.ClampMeans | src/export/vfh_exporter.cpp:2183 | a time before zero is exported as zero |
| MotionBlurRuns.FirstFrameExports | src/export/vfh_exporter.cpp:2164-2197 | a first frame exports the scene at all its samples, in order |
| MotionBlur.Exporter.ClearKeyFrames | src/export/vfh_exporter.cpp:1886-1903 | keyframes are cleared up to the time, and only when frames go to separate files; the largest number clears all |
| MotionBlur.Exporter.DropOldFrames | src/export/vfh_exporter.cpp:2171-2178 | the loop that erases while it iterates leaves exactly the times from the shutter start on |
| MotionBlur.Exporter.ExportFrame | src/export/vfh_exporter.cpp:2168-2197 | terminates unless the duration is zero; visits the shutter's samples and exports those not marked yet |
| MotionBlur.GuardHoldsWhile | src/export/vfh_exporter.cpp:2181-2196 | the loop visits exactly samples 0 to max(samples - 1, 1) |
| MotionBlur.ZeroDurationNeverEnds | src/export/vfh_exporter.cpp:2181-2196 | without blur duration every sub-frame is the start and the guard holds for ever |
| MotionBlurRuns.ExportedExactlyOnce | src/export/vfh_exporter.cpp:2164-2197 | over an animation whose shutters never step back the scene is exported exactly once at every needed time and at no other |
| MotionBlurRuns.EveryFrameIsRetained | src/export/vfh_exporter.cpp:2164-2208 | over a whole animation every sample of the frame being rendered has a keyframe, exactly unless per-file clearing takes the start itself and an earlier frame needed that time |
| MotionBlurRuns.RetainedUnlessStartIsCleared | src/export/vfh_exporter.cpp:2164-2197 | one frame in any state a run reaches: every sample has a keyframe exactly unless clearing takes the shutter start while it is still marked |
| MotionBlurRuns.AnimationKeepsBacked | src/export/vfh_exporter.cpp:2164-2197 | over any animation every mark beyond the last shutter start has its keyframe |
| MotionBlurRuns.MeetingShuttersLoseAKey | src/export/vfh_exporter.cpp:2164-2197 | two frames whose shutters meet, where the second misses the keyframe of its start |
| PrmTrees.ReadItemsOfEncoded | src/utils/vfh_prm_templates.cpp:411-425 | reading folder counts back off the pre-order encoding rebuilds the forest and leaves the rest of the array |
| PrmLists.PutAppends | src/utils/vfh_prm_templates.cpp:381-387 | adding a parameter appends its encoding |
| PrmLists.EndRewrites | src/utils/vfh_prm_templates.cpp:411-425 | filling in the folders at the remembered index turns the switcher's part of the array into its encoding |
| PrmLists.PRMList.constructor | src/utils/vfh_prm_templates.cpp:343-351 | an empty list holds the terminator |
| PrmLists.PRMList.Clear | src/utils/vfh_prm_templates.cpp:343-351 | from any state back to the empty list |
| PrmLists.PRMList.AddElement | src/utils/vfh_prm_templates.cpp:381-387 | the parameter replaces the terminator, a new terminator follows, and only the innermost open folder counts it |
| PrmLists.PRMList.AddPrm | src/utils/vfh_prm_templates.cpp:381-396 | the list stays the encoding of the described forest with the parameter added |
| PrmLists.PRMList.SwitcherBegin | src/utils/vfh_prm_templates.cpp:399-408 | one more open switcher, counted by its enclosing folder |
| PrmLists.PRMList.SwitcherEnd | src/utils/vfh_prm_templates.cpp:411-425 | the innermost switcher becomes part of the enclosing folder, its folder counts written |
| PrmLists.PRMList.AddFolder | src/utils/vfh_prm_templates.cpp:428-436 | one more empty folder in the innermost switcher |
| PrmLists.PRMList.IncCurrentFolderPrmCnt | src/utils/vfh_prm_templates.cpp:567-581 | the count of the last folder of the innermost switcher grows by the given number, never below zero, and nothing else changes |
| PrmListRuns.RunIsWrittenDown | src/utils/vfh_prm_templates.cpp:381-436 | the list determines the calls that built it |
| PrmListRuns.BalancedCallsEncodeTheirForest | src/utils/vfh_prm_templates.cpp:381-436 | after every balanced sequence of calls the terminated array encodes the tree those calls describe, and reading it back rebuilds the tree |
| PrmListRuns.WrittenCallsBuildForest | src/utils/vfh_prm_templates.cpp:381-436 | the calls that describe a forest are accepted and build it, for every forest whose switchers have folders |
| PrmListRuns.ForestCounts | src/utils/vfh_prm_templates.cpp:567-581 | folder counts plus top-level parameters sum to the length of the encoding |
| PrmListRuns.CountsSumToSize | src/utils/vfh_prm_templates.cpp:567-581 | in a finished list they sum to size(), and the terminator stands there |
| DetailCaches.DetailCache.constructor | src/gu/vfh_gu_cache.h:44-46 | a new cache is on and empty |
| DetailCaches.DetailCache.EnableCache | src/gu/vfh_gu_cache.h:53-55 | only the switch changes |
| DetailCaches.DetailCache.RegisterInCache | src/gu/vfh_gu_cache.h:61-66 | one more reference for the pair; an empty path is ignored |
| DetailCaches.DetailCache.Unregister | src/gu/vfh_gu_cache.h:72-86 | one reference less; the last one drops the pair's details, and the path is cleaned when nothing is left under it |
| DetailCaches.DetailCache.GetCachedCached | src/gu/vfh_gu_cache.h:132-153 | the cached handle of path, settings hash and frame key, or an invalid one |
| DetailCaches.DetailCache.GetDetail | src/gu/vfh_gu_cache.h:106-125 | answers from the cache or builds and stores; bypasses the cache when it is off |
| DetailCacheRuns.RunIsTruthful | src/gu/vfh_gu_cache.h:106-125 | after any run every valid cached handle is what the builder gives for its path, settings and frame |
| DetailCacheRuns.TransparentIffRespects | src/gu/vfh_gu_cache.h:106-183 | the cache is invisible in all runs exactly if the builder depends on settings and frame only through hash and millisecond key |
| DetailCacheRuns.FrameKeyMeans | src/gu/vfh_gu_cache.h:181-183 | which frames share a key: those of one millisecond, its end included |
| DetailCacheRuns.CachedUntilTakenBack | src/gu/vfh_gu_cache.h:72-125 | a cached detail stays until the last registration of its pair is taken back, and then it is gone |
| DetailCacheRuns.CachedByAsking | src/gu/vfh_gu_cache.h:106-125 | a detail enters the cache exactly by asking for it while the cache is on |
| DetailCacheRuns.CountsAreOutstanding | src/gu/vfh_gu_cache.h:61-86 | when every unregister matches a register, each count is the number of outstanding registrations |
| DetailCacheRuns.CleanMeansUnregistered | src/gu/vfh_gu_cache.h:72-86 | cleanResource fires exactly when the last registration of the only pair under the path is taken back; then no pair of the path is registered |
| DetailCacheRuns.AskedPairKeepsResource | src/gu/vfh_gu_cache.h:72-125 | a run after which nothing of a path is registered and its resource is not cleaned |
| Transforms.MulAssociates | src/export/export/vfh_export_geom.cpp:302-306 | composition of transforms is associative |
| Transforms.MulIsComposition | src/export/export/vfh_export_geom.cpp:302-306 | a product moves a point as its right and then its left operand do |
| PrimContexts.PrimContextStack.constructor | src/export/export/vfh_export_geom.cpp:280-288 | an empty stack |
| PrimContexts.PrimContextStack.PushContext | src/export/export/vfh_export_geom.cpp:219-223 | the context is on top and nothing stale is left |
| PrimContexts.PrimContextStack.PopContext | src/export/export/vfh_export_geom.cpp:225-229 | the top is returned and removed |
| PrimContexts.PrimContextStack.InitCurrentContext | src/export/export/vfh_export_geom.cpp:280-315 | the backward loop computes the direct composition of the stack, at most once between changes |
| PrimContexts.NoLevel | src/export/export/vfh_export_geom.cpp:285-288 | what an empty stack composes to |
| PrimContexts.SingleLevel | src/export/export/vfh_export_geom.cpp:290-314 | what a single level composes to, attribute by attribute |
| PrimContexts.PrimContextStack.GetWorldTm | src/export/export/vfh_export_geom.cpp:231-235 | the composed world transform, cached or not |
| PrimContexts.PrimContextStack.GetTm | src/export/export/vfh_export_geom.cpp:237-241 | the outer-to-inner product of the transforms |
| PrimContexts.PrimContextStack.GetVel | src/export/export/vfh_export_geom.cpp:243-247 | the composed velocity |
| PrimContexts.PrimContextStack.GetDetailID | src/export/export/vfh_export_geom.cpp:249-253 | the exclusive or of all ids |
| PrimContexts.PrimContextStack.GetPrimMaterial | src/export/export/vfh_export_geom.cpp:262-266 | the outermost material and all overrides, an inner one beating an outer one |
| PrimContexts.PrimContextStack.GetStylerAndPrim | src/export/export/vfh_export_geom.cpp:268-278 | styler and primitive of the innermost context |
| PrimContexts.ConcatComposes | src/export/export/vfh_export_geom.cpp:290-315 | a stack in two parts: transforms multiply, ids combine, the inner velocity is moved by the product of the outer ones, the outer material and the inner overrides win |
| PrimContexts.ConcatWorldTm | src/export/export/vfh_export_geom.cpp:306-309 | the world transform of a stack in two parts |
| PrimContexts.VelocityIsProductIff | src/export/export/vfh_export_geom.cpp:285-304 | the composed velocity is the offset of the outer-to-inner product of the velocities, and it is that product exactly if the product has no matrix |
| PrimContexts.OutermostVelocityHides | src/export/export/vfh_export_geom.cpp:301-304 | an outermost velocity without a matrix is the composed velocity, whatever the levels inside carry |
| PrimContexts.OwnVelocityIff | src/export/export/vfh_export_geom.h:167-168 | for contexts as the program makes them, the current level's velocity is returned exactly if it is the outermost level's |
| PrimContexts.PrimitiveVelocityIsLost | src/export/export/vfh_export_geom.cpp:820-827 | the velocity of a primitive anywhere inside an object context is lost |
| PrimContexts.OneIdentifierTellsApart | src/export/export/vfh_export_geom.h:170-171 | stacks that differ in one level's id have the same detail id exactly if the ids are equal |
| PrimContexts.SwappedLevelsCollide | src/export/export/vfh_export_geom.cpp:302 | swapping two levels leaves the detail id as it was |
| PrimContexts.EqualIdentifiersCancel | src/export/export/vfh_export_geom.cpp:302 | two more levels leave the detail id as it was exactly if their ids are equal |
| PrimContexts.BalancedCallsRestore | src/export/export/vfh_export_geom.cpp:219-229 | balanced pushes and pops leave the stack, and so every getter, as it was |
| PreviewFaces.PicksAreEven | src/sop/vfh_vrayproxyutils.cpp:166-179 | exactly maxFaces faces, in order, without repeats, at most ceil(numFaces/maxFaces) apart: each the one on which one of maxFaces equal stretches ends |
| PreviewFaces.PickStep | src/sop/vfh_vrayproxyutils.cpp:169-172 | a face is taken exactly when its slot changes, and the guard on the number of faces never rejects one |
| PreviewFaces.CopyFace | src/sop/vfh_vrayproxyutils.cpp:173-176 | the three corners of a face are written behind what is there, which stays as it was |
| PreviewFaces.LimitFaces | src/sop/vfh_vrayproxyutils.cpp:159-179 | both arrays are filled to 3*maxFaces; element 3i+c is corner c of the i-th picked face |
| PhxFrames.EvalCacheFrame | src/utils/vfh_phx_utils.cpp:84-130 | terminates in every mode and returns the specified frame |
| PhxFrames.WrapLoops | src/utils/vfh_phx_utils.cpp:113-120 | the two loops terminate and bring the position into the loop interval |
| PhxFrames.WrapMeans | src/utils/vfh_phx_utils.cpp:113-120 | the wrapped position lies in [0, length] and differs by a whole number of lengths; inside the interval nothing moves |
| PhxFrames.WrapUnique | src/utils/vfh_phx_utils.cpp:113-120 | there is no other such position, but for the two ends standing for each other |
| PhxFrames.ClampIsClosest | src/utils/vfh_phx_utils.cpp:97-101 | clamping gives the closest point of [0, length] |
| PhxFrames.LoopedFrameMeans | src/utils/vfh_phx_utils.cpp:110-129 | in loop mode the frame is the read offset plus the scaled time less whole lengths, in [0, length], truncated; inside the interval nothing is taken off |
| PhxFrames.StandardFrameMeans | src/utils/vfh_phx_utils.cpp:94-129 | in standard mode the scaled time is kept inside the interval; outside it is moved to the closest time inside for load-nearest, and is the least integer otherwise |
| PhxFrames.PlainFrameMeans | src/utils/vfh_phx_utils.cpp:84-130 | without a length the scaled time is taken as it is; the other modes take their frame unscaled and without the offset |
| PhxFrames.TruncateMeans | src/utils/vfh_phx_utils.cpp:129 | the conversion to int drops the fraction towards zero |
| LogThread.StepKeepsInv | src/utils/vfh_log.cpp:144-180 | every atomic step of any party keeps the account of messages |
| LogThread.NothingLostOrReordered | src/utils/vfh_log.cpp:144-180 | under every interleaving the enqueued messages are those logged, then the rest of the batch, then the queue |
| LogThread.BatchesAreNotEmpty | src/utils/vfh_log.cpp:163-173 | the thread never takes an empty batch although it looks at the queue without the lock |
| LogThread.LoggedIsAPrefix | src/utils/vfh_log.cpp:163-180 | what is logged only grows and is always a prefix of what was enqueued |
| LogThread.UnloggedIsEnqueuedAfterLastBatch | src/utils/vfh_log.cpp:154-180 | once the thread has ended, exactly what was enqueued after its last batch is unlogged; everything is logged if and only if a batch was taken after every enqueue |
| LogThread.EndingDoesNotDrain | src/utils/vfh_log.cpp:158-180 | a run without any race that enqueues a message, stops logging, and leaves the message unlogged |
| LogThread.QueueIsEnqueuedSinceBatch | src/utils/vfh_log.cpp:144-180 | in every state the queue holds, in order, what came in after the last batch was taken |
| LogThread.StoppingLeavesMessageBehind | src/utils/vfh_log.cpp:144-180 | a run that stops logging between a producer's test of the flag and its enqueue, and leaves the message unlogged |
| LogThread.EveryMessageAccounted | src/utils/vfh_log.cpp:144-180 | every message handed to add is in exactly one place: in flight, queued, in the batch, or logged once |
| LogThread.NothingIsQueuedWhileStopped | src/utils/vfh_log.cpp:144-152 | without a console, or as long as logging is stopped, nothing is queued |
| LogThread.WhileWorkingNothingIsDirect | src/utils/vfh_log.cpp:144-152 | with a console, no producer that finds logging started logs for itself |

## Left out

- LRUCache iterators and `begin`/`end`, and copying of caches: lookups return the value instead of an iterator.
- CacheList's stored copy of the key: it is written and never read. Reference counts grow without the 32-bit limit; the wrap of the decrement is modelled.
- Murmur3.MurmurHash3X86_32: block reads are little-endian; big-endian platforms and the 128-bit variants are not part of this model.
- Conditionals.GetAsHouConditionalList: does not model the renaming of values to menu tokens, which depends on Houdini's parameter templates.
- Conditional text is a sequence of braces and three-word comparisons; values that themselves contain braces or blanks are not modelled, nor the layout of blanks.
- UiGuides.ParseUIGuides: keeps the text of each body instead of parsing it; of the body parsers only `parseEnable` is modelled, since the others read single numbers or plain lists.
- EnableGuides.ParseEnable: the reading of one value as integer, float or string is a parameter.
- WidgetConditions.GetJSONParmConditions: loading descriptions from files and the lookup of parameter records are reduced to the set of known names.
- ViewExport.ViewExporter.ExportView: does not model crop regions, auto-commit and the resolution limit of Houdini Indie; image sizes are positive, textures stand for the node at their path, and plugin attributes computed by other nodes are not followed.
- Filling view parameters from nodes: a long copy of fields.
- MotionBlur.Exporter.ExportFrame: covers the motion-blur branch; takes, settings, rendering and the branch without blur are left out, and an abort is the number of sub-frames visited before it.
- MotionBlur.Exporter.ClearKeyFrames: the renderer's treatment of the clearing time itself is not visible in the repository, so it is a parameter.
- PRMList: `addFromFile` and `addFromPRMTemplate` depend on Houdini's template layout, and cook flags and script groups carry no structure.
- PrmLists.PRMList.SwitcherEnd: switchers are referred to by index into the switcher list, where the program keeps pointers.
- DetailCaches.DetailCache.GetDetail: does not model the extra return value of the builder; frame keys are unbounded integers.
- Primitive contexts: `getGenerator` is left out, styler contents are opaque, and the SDK's transform product is taken to be composition.
- PreviewFaces.LimitFaces: slots are computed exactly, where the program rounds a double ratio; the unlimited branch and the building of polygons are left out.
- PhxFrames.EvalCacheFrame: the returned integer is unbounded. Frame patterns in file names and channel mappings are left out.
- Log thread: formatting, sleeping and joining are left out; each labelled action is atomic.
- `exportPointParticles`, the modes of `exportObject` and the polysoup cache: entangled with Houdini geometry.
- Everything that only calls Houdini, V-Ray, Qt or HDF5, and the user interface, cloud submission, registration and build scripts.
