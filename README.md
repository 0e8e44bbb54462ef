# Lower-dimensional blocks from boundaries, and per-block porous-flow properties

This project models, in Dafny, the core of a MOOSE application with two parts.

- **Three mesh generators** turn a boundary into a new block of lower-dimensional elements:
  - `BlockFromNodesGenerator` takes node ids or coordinates;
  - `BlockFromNodesGeneratorFromFile` takes a CSV file of block names and node-id lists;
  - `BlocksFromSideSetsGeneratorFromFile` takes a CSV file of flagged sidesets.
- **Three porous-flow materials** look up a constant property for the block of the current element:
  - `PorousFlowPorosityAllBlocks` and `PorousFlowPermeabilityAllBlocks` read a per-block table from a CSV file;
  - `PorousFlowPorosityMultiBlocks` uses a block-id list given as a parameter.

## The modules

- **`MeshModel` and `Promotion`** hold the block synthesis shared by the three generators.
  - The mesh is a class whose fields change in place: elements by id, the local nodes, node tags, the side list, nodeset and subdomain names, the id counters, and the `prepare_for_use` flags.
  - `Promotion` holds the pure parts: the side filter with its running counter, the rejection of inactive parents, the numbering of new elements, and the push plan of a distributed mesh.
  - `Mesh.PromoteBoundary`, `Mesh.AddBlock` and `Mesh.AddBlocks` are the imperative steps that use them.
- **`BlockFromNodesGenerator`, `FromNodesFile` and `FromSidesetsFile`** are the three generators. Each is written as the source writes it: loops over coordinates, rows and blocks that change the mesh, each method proved against a function of its inputs.
- **`TableText`** models the text layer every reader shares: the byte-order-mark check, `std::getline` on lines and cells, the trailing-whitespace trim, `std::stoi`, and the unsigned casts.
- **`BlockTable`** models the column reading and the block lookup shared by the two `AllBlocks` materials.
- **`PorosityAllBlocks`, `PermeabilityAllBlocks` and `PorosityMultiBlocks`** are the three materials.
- **`Overwrite`** is the theory of a map filled by successive assignments, where the last one wins. It serves `_block_to_index`, nodeset names and subdomain names.
- **`Errors` and `Geometry`** hold the shared outcome types, points, gradients and tensors.

Every fatal `mooseError`, `paramError` and escaping `std::stoi` exception becomes an `Err`/`Fail` value that the callers pass on unchanged. A read past the end of a vector, which is undefined behaviour in the source, is the error `OutOfBounds`.

Inputs the model does not compute are parameters of the methods:
- the point locator, the tolerance test and `std::stod`;
- the ids `getBoundaryIDs` assigns;
- the sides `build_side_list_from_node_list` derives;
- `reconnect_nodes`;
- what the other processes contribute.

## Model

| member | source | states |
|---|---|---|
| TableText.SkipBom | src/meshgenerators/BlockFromNodesGeneratorFromFile.C:49-57 | The read starts after three bytes exactly when they are EF BB BF. It starts at 0 when the first three bytes are anything else. Nothing can be read from a file shorter than three bytes. |
| TableText.BomIsTransparent | src/materials/PorousFlowPorosityAllBlocks.C:22-30 | For a file of at least three bytes that does not itself start with EF BB BF, putting a byte-order mark in front changes none of the lines read. |
| TableText.ShortFileNeedsBom | src/materials/PorousFlowPorosityAllBlocks.C:22-30 | Below three bytes the mark matters. A one-line file of one or two bytes reads no line at all, while the same bytes after a byte-order mark read as that one line: "ab" reads nothing, EF BB BF "ab" reads ["ab"]. |
| TableText.DecimalHasNoComma | src/meshgenerators/BlockFromNodesGenerator.C:314 | The text `to_string` writes is a single cell: it has no ',' and nothing for the trailing trim to remove. |
| TableText.SplitOn | src/meshgenerators/BlockFromNodesGeneratorFromFile.C:94 | There is always at least one piece, and no piece contains the delimiter. |
| TableText.JoinSplit | src/meshgenerators/BlockFromNodesGeneratorFromFile.C:94 | Joining the pieces of a split with the delimiter gives back the original text. |
| TableText.SplitJoin | src/meshgenerators/BlockFromNodesGeneratorFromFile.C:94 | Pieces without the delimiter are recovered by splitting their join. |
| TableText.Tokens | src/meshgenerators/BlockFromNodesGeneratorFromFile.C:89 | Successive `getline` calls deliver the pieces in order. Only a final empty piece is dropped, and one is dropped exactly when the text ends with the delimiter. |
| TableText.CellsJoin | src/meshgenerators/BlockFromNodesGeneratorFromFile.C:94 | Cells without ',' whose last cell is not empty are exactly the cells read from the line they join into. |
| TableText.TrimTrailing | src/meshgenerators/BlockFromNodesGeneratorFromFile.C:96 | The result is a prefix of the cell. It is empty or ends in a character outside " \n\r\t", and every character removed is in that set. |
| TableText.StoI | src/meshgenerators/BlockFromNodesGeneratorFromFile.C:102 | A parsed value lies in `int` range. The only failures are "no number" and "out of range". |
| TableText.DecimalValue | src/meshgenerators/BlockFromNodesGenerator.C:314 | The digits `to_string` writes denote the number written. |
| TableText.StoIDecimal | src/meshgenerators/BlockFromNodesGeneratorFromFile.C:107 | `stoi` reads back every natural number up to `INT_MAX` that `to_string` wrote. |
| TableText.ToU32 | src/meshgenerators/BlockFromNodesGeneratorFromFile.C:102 | The `unsigned int` cast is below 2^32, congruent to its argument modulo 2^32, and the identity on values that fit. |
| TableText.ToU16 | src/meshgenerators/BlocksFromSideSetsGeneratorFromFile.C:91 | The `SubdomainID` cast is below 2^16, congruent to its argument modulo 2^16, and the identity on values that fit. |
| BlockTable.SelectColumn | src/materials/PorousFlowPorosityAllBlocks.C:52-58 | The cell loop with its `unsigned` counter, followed by the `cnt != col_index` check, yields the cell `ColumnCell` describes, or the format error. |
| BlockTable.ColumnCellCases | src/materials/PorousFlowPermeabilityAllBlocks.C:67-73 | A line yields a cell exactly when it has more than `col_index` cells; the one exception is the empty line under column 2^32-1, where the counter wraps. The cell is then the untrimmed cell at `col_index`. Every other line is the format error. |
| BlockTable.ColumnReadsBack | src/materials/PorousFlowPorosityAllBlocks.C:52-58 | A line written from cells without ',' selects back the cell at `col_index`. |
| BlockTable.ReadColumn | src/materials/PorousFlowPorosityAllBlocks.C:47-61 | A successful read has one value per line. |
| BlockTable.ReadColumnRows | src/materials/PorousFlowPorosityAllBlocks.C:60 | Value `i` of the table is `stod` of the cell selected from line `i`. |
| BlockTable.ReadColumnFails | src/materials/PorousFlowPermeabilityAllBlocks.C:73-75 | One line with a missing or unparsable cell makes the whole read fail. |
| BlockTable.ReadTable | src/materials/PorousFlowPorosityAllBlocks.C:40-61 | The line loop returns exactly `ReadColumn` of the file's lines, or its first error. |
| BlockTable.BlockValue | src/materials/PorousFlowPorosityAllBlocks.C:71-77 | Block `b` gets `data[b - 1]` exactly when `1 <= b <= |data|`. Every other block is "Block ID ... not found". |
| BlockTable.GuardAdmitsMissingBlocks | src/materials/PorousFlowPorosityAllBlocks.C:71-73 | The guard as written leads to a read past the end exactly for the blocks beyond the table, and for block 0 of an empty table. On every other block it agrees with `BlockValue`. |
| BlockTable.GuardCounterexample | src/materials/PorousFlowPermeabilityAllBlocks.C:91-92 | With the one-row table [0.25], block 2 passes the guard as written and reads `data[1]`. The bounded lookup reports block 2 as not found. |
| BlockTable.Zeros | src/materials/PorousFlowPorosityAllBlocks.C:90 | `assign(n, 0.0)` leaves exactly `n` zero entries. |
| BlockTable.ZeroGradients | src/materials/PorousFlowPorosityAllBlocks.C:91 | `assign(n, RealGradient())` leaves exactly `n` zero gradients. |
| PorosityAllBlocks.PorousFlowPorosityAllBlocks.Load | src/materials/PorousFlowPorosityAllBlocks.C:40-61 | After construction the table is `ReadColumn` of the file's lines, with one value per line, or construction fails with the first error. |
| PorosityAllBlocks.PorousFlowPorosityAllBlocks.InitQp | src/materials/PorousFlowPorosityAllBlocks.C:66-79 | The porosity becomes `data[b - 1]` exactly when `1 <= b <= |data|`. Otherwise the error is "not found" and the porosity is unchanged. |
| PorosityAllBlocks.PorousFlowPorosityAllBlocks.ComputeQp | src/materials/PorousFlowPorosityAllBlocks.C:83-93 | Same lookup as `InitQp`. Without AD both derivative arrays then hold `_num_var` zeros. With AD, or after an error, they are unchanged. |
| PermeabilityAllBlocks.Diagonal | src/materials/PorousFlowPermeabilityAllBlocks.C:96-104 | The tensor has the value on its three diagonal entries and 0 on the six others. |
| PermeabilityAllBlocks.Resize | src/materials/PorousFlowPermeabilityAllBlocks.C:110 | `resize(n, pad)` gives length `n`, keeps the old entries below `n`, and fills the new room with `pad`. |
| PermeabilityAllBlocks.ResizeIdempotent | src/materials/PorousFlowPermeabilityAllBlocks.C:108-115 | Resizing again to the same length changes nothing, so repeated quadrature points keep the arrays as they are. |
| PermeabilityAllBlocks.GradRows | src/materials/PorousFlowPermeabilityAllBlocks.C:111-114 | There are exactly `LIBMESH_DIM` rows. Each row is the old row, or an empty one, resized to `_num_var` with zero tensors. |
| PermeabilityAllBlocks.FreshDerivativesAreZero | src/materials/PorousFlowPermeabilityAllBlocks.C:108-115 | Sized from empty arrays, every derivative entry is the zero tensor. |
| PermeabilityAllBlocks.PorousFlowPermeabilityAllBlocks.Load | src/materials/PorousFlowPermeabilityAllBlocks.C:53-80 | After construction the table is `ReadColumn` of the file's lines, with one value per line, or construction fails with the first error. |
| PermeabilityAllBlocks.PorousFlowPermeabilityAllBlocks.SizeGradDerivatives | src/materials/PorousFlowPermeabilityAllBlocks.C:111-114 | The gradient derivative array becomes `GradRows` of its old value. |
| PermeabilityAllBlocks.PorousFlowPermeabilityAllBlocks.ComputeQp | src/materials/PorousFlowPermeabilityAllBlocks.C:85-116 | The tensor becomes the diagonal of `data[b - 1]` exactly when `1 <= b <= |data|`, and is "not found" otherwise. Without AD the two derivative arrays are resized as `resize` prescribes. With AD, or after an error, they are unchanged. |
| PorosityMultiBlocks.IndexMapKeys | src/materials/PorousFlowPorosityMultiBlocks.C:48-51 | The map's keys are exactly the listed block ids. |
| PorosityMultiBlocks.IndexMapLast | src/materials/PorousFlowPorosityMultiBlocks.C:48-51 | A listed block maps to the position of its last occurrence in the list. |
| PorosityMultiBlocks.IndexMapInverts | src/materials/PorousFlowPorosityMultiBlocks.C:48-51 | With distinct block ids the map inverts the list. |
| PorosityMultiBlocks.PorosityOf | src/materials/PorousFlowPorosityMultiBlocks.C:63-66 | A block not in the map gets position 0. The value at the position is taken when the position is inside the porosity list, and is a read past the end otherwise. |
| PorosityMultiBlocks.ListedBlockPorosity | src/materials/PorousFlowPorosityMultiBlocks.C:63-66 | When the porosity list is at least as long as the id list, a listed block gets the porosity at its last occurrence. |
| PorosityMultiBlocks.UnlistedBlockPorosity | src/materials/PorousFlowPorosityMultiBlocks.C:65 | An unlisted block silently gets the first porosity. |
| PorosityMultiBlocks.PorousFlowPorosityMultiBlocks.LookupKeepsPorosities | src/materials/PorousFlowPorosityMultiBlocks.C:65 | The insertion `operator[]` makes never changes the porosity any block gets later. |
| PorosityMultiBlocks.PorousFlowPorosityMultiBlocks.constructor | src/materials/PorousFlowPorosityMultiBlocks.C:40-52 | The constructor's loop leaves `_block_to_index` equal to `IndexMap` of the id list. |
| PorosityMultiBlocks.PorousFlowPorosityMultiBlocks.InitQp | src/materials/PorousFlowPorosityMultiBlocks.C:56-67 | An unknown block is inserted with position 0 and no other entry changes. The porosity is `PorosityOf` of the map as it was, or the operation fails and the porosity is unchanged. |
| PorosityMultiBlocks.PorousFlowPorosityMultiBlocks.ComputeQp | src/materials/PorousFlowPorosityMultiBlocks.C:71-81 | Same lookup as `InitQp`. Without AD both derivative arrays then hold `_num_var` zeros. With AD, or after an error, they are unchanged. |
| Overwrite.AssignKeys | src/materials/PorousFlowPorosityMultiBlocks.C:48-51 | After the assignments the keys are the old keys plus every assigned key. |
| Overwrite.AssignUntouched | src/meshgenerators/BlockFromNodesGenerator.C:172-173 | A key that is never assigned keeps its old value. |
| Overwrite.AssignLastWins | src/materials/PorousFlowPorosityMultiBlocks.C:48-51 | Every assigned key holds the value of its last assignment. |
| Overwrite.AssignDistinct | src/meshgenerators/BlockFromNodesGenerator.C:172-173 | With distinct keys every assignment survives. |
| Overwrite.LastOccurrence | src/materials/PorousFlowPorosityMultiBlocks.C:48-51 | Every element of a list has a last occurrence, at or after any given one. |
| Promotion.PendingSides | src/meshgenerators/BlockFromNodesGeneratorFromFile.C:270-287 | Every record names an element this process holds. |
| Promotion.CollectSides | src/meshgenerators/BlockFromNodesGeneratorFromFile.C:270-287 | The loop fails with the inactive-parent error exactly when some matching triple names a local element that is not active. Otherwise it returns the records `PendingSides` describes. |
| Promotion.PendingOffsets | src/meshgenerators/BlockFromNodesGeneratorFromFile.C:283-286 | The recorded counter values strictly increase and are all smaller than the number of matching triples. |
| Promotion.PendingParents | src/meshgenerators/BlockFromNodesGeneratorFromFile.C:275-284 | Every recorded parent is local. When no matching local element is inactive, every recorded parent is active. |
| Promotion.PendingCount | src/meshgenerators/BlocksFromSideSetsGeneratorFromFile.C:212-229 | There is one record per matching triple whose element is local. This count is at most the number of matching triples, and equal to it when every matching element is local. |
| Promotion.PendingExactly | src/meshgenerators/BlockFromNodesGeneratorFromFile.C:270-287 | A record is in the list exactly when it is made from a matching local triple, with the number of earlier matching triples as its counter. |
| Promotion.NewElemsKeys | src/meshgenerators/BlockFromNodesGeneratorFromFile.C:295-319 | The new ids are exactly `max_elem_id` plus each recorded counter. |
| Promotion.NewElemsShape | src/meshgenerators/BlockFromNodesGeneratorFromFile.C:302-316 | Every new element is active and in the new block, with unique id `max_unique_id` plus its id offset, and its parent is local. Its owner is the parent's owner. |
| Promotion.NewElemsCount | src/meshgenerators/BlockFromNodesGeneratorFromFile.C:315-319 | With strictly increasing counters every record yields its own element. |
| Promotion.NewElemsFresh | src/meshgenerators/BlockFromNodesGeneratorFromFile.C:289-290 | When `max_elem_id` and `max_unique_id` exceed every id in use, no new id or unique id collides with an existing one. |
| Promotion.NewElemsUniqueIds | src/meshgenerators/BlockFromNodesGeneratorFromFile.C:316 | No two new elements share a unique id. |
| Promotion.GatherSendList | src/meshgenerators/BlockFromNodesGenerator.C:207-219 | The send loop sets the need flag exactly when some triple matches, and collects `SendList`. It fails with the missing element when `elem_ptr` cannot return one. |
| Promotion.SendListContents | src/meshgenerators/BlockFromNodesGeneratorFromFile.C:216-228 | An element is sent exactly when it is matched and owned by this process. The gathering fails exactly when a matching element is missing here. |
| Promotion.NeedIffMatch | src/meshgenerators/BlockFromNodesGeneratorFromFile.C:219-223 | `i_need_boundary_elems` is 1 exactly when some side-list triple matches. |
| Promotion.BuildPushPlan | src/meshgenerators/BlockFromNodesGenerator.C:234-242 | Only processes other than this one whose gathered flag is set receive anything. Each gets the element list when it is non-empty and the node set when it is non-empty. |
| MeshModel.PromotedElems | src/meshgenerators/BlockFromNodesGeneratorFromFile.C:295-320 | After a promotion the old elements are unchanged, and every added element is a promoted side as `NewElemsShape` describes. |
| MeshModel.PromotedCount | src/meshgenerators/BlocksFromSideSetsGeneratorFromFile.C:237-262 | A promotion adds exactly one element per matching triple whose element is local. |
| MeshModel.PromotedElemsAllLocal | src/meshgenerators/BlocksFromSideSetsGeneratorFromFile.C:212-262 | When every matching element is local, a promotion adds exactly one element per matching triple. |
| MeshModel.NextFreeMonotone | src/meshgenerators/BlocksFromSideSetsGeneratorFromFile.C:137 | When the subdomains in use only grow, the next free id never gets smaller. It gets larger once the earlier next free id is itself in use. |
| MeshModel.InUseGrows | src/meshgenerators/BlocksFromSideSetsGeneratorFromFile.C:137 | Keeping every element with its value and adding to the other processes' subdomains only grows the set of subdomains in use. |
| MeshModel.RunExtend | src/meshgenerators/BlocksFromSideSetsGeneratorFromFile.C:123-129 | A run extended by a round that starts where the run ended, and completes, is a run with one more block. |
| MeshModel.RunStop | src/meshgenerators/BlocksFromSideSetsGeneratorFromFile.C:123-129 | A run ended by a round that starts where the run ended, and fails, is a failed run whose error is that round's. |
| MeshModel.ChainedExtend | src/meshgenerators/BlocksFromSideSetsGeneratorFromFile.C:123-129 | A round that starts with the elements and side list the last round ended with keeps the rounds chained. |
| MeshModel.CompletedExtend | src/meshgenerators/BlocksFromSideSetsGeneratorFromFile.C:123-129 | A round that completes with block `b` on the next target and exchange extends the completed rounds by `b`. |
| MeshModel.RunRound | src/meshgenerators/BlockFromNodesGeneratorFromFile.C:132-137 | Every round of a run, completed or failed, did what one `GenerateBlock` does: its block, its stop conditions and its promotion. |
| MeshModel.RunKeeps | src/meshgenerators/BlockFromNodesGeneratorFromFile.C:132-137 | Everything a round ended with is still in the mesh, unchanged, when the run ends. |
| MeshModel.RoundAdds | src/meshgenerators/BlockFromNodesGeneratorFromFile.C:289-320 | A completed round adds exactly promoted sides in its block, one per matching triple whose element was local in that round. |
| MeshModel.RunNewElems | src/meshgenerators/BlockFromNodesGeneratorFromFile.C:132-137 | The elements a completed round added are in the final mesh unchanged, each a promoted side in that round's block, one per matching triple whose element was local then. |
| MeshModel.RoundBlockInUse | src/meshgenerators/BlockFromNodesGeneratorFromFile.C:295-319 | A completed round that added an element leaves its block among the subdomains in use. |
| MeshModel.NextRoundBlock | src/meshgenerators/BlocksFromSideSetsGeneratorFromFile.C:123-137 | Of two consecutive completed rounds, where the other processes' subdomains do not shrink, the second allocates an id no smaller than the first, and a larger one when the first added an element. |
| MeshModel.RunBlocksOrdered | src/meshgenerators/BlocksFromSideSetsGeneratorFromFile.C:123-137 | When the other processes' subdomains only grow from round to round, the completed rounds' block ids never decrease. A round that added an element is followed by a strictly larger id. |
| MeshModel.BoundaryIds | src/meshgenerators/BlocksFromSideSetsGeneratorFromFile.C:150 | `getBoundaryIDs` gives one id per name, in order. |
| MeshModel.Targets | src/meshgenerators/BlockFromNodesGeneratorFromFile.C:208-209 | Each round's target set is the single id of its name. |
| MeshModel.Mesh.AddNodeTag | src/meshgenerators/BlockFromNodesGeneratorFromFile.C:164 | `add_node` adds exactly one node/boundary pair. |
| MeshModel.Mesh.TagNodesById | src/meshgenerators/BlockFromNodesGenerator.C:94-103 | Every id this process holds is tagged with every boundary id. Absent ids are skipped and no other pair changes. |
| MeshModel.Mesh.NameNodesets | src/meshgenerators/BlockFromNodesGenerator.C:172-173 | Nodeset `bids[i]` is named `names[i]`, a later name replacing an earlier one for the same id. |
| MeshModel.Mesh.BuildSideListFromNodeList | src/meshgenerators/BlockFromNodesGeneratorFromFile.C:181 | The derived sides are appended to the side list. |
| MeshModel.Mesh.SetIsntPrepared | src/meshgenerators/BlockFromNodesGeneratorFromFile.C:170-171 | The mesh is marked unprepared. |
| MeshModel.Mesh.PrepareForUse | src/meshgenerators/BlockFromNodesGeneratorFromFile.C:204 | The mesh is prepared, and the call is logged with the flags in force. |
| MeshModel.Mesh.PrepareKeepingRemoteElements | src/meshgenerators/BlockFromNodesGeneratorFromFile.C:198-206 | An unprepared mesh is prepared once with remote element removal off. The flag gets its old value back, and a prepared mesh is left alone. |
| MeshModel.Mesh.NextFreeSubdomainId | src/meshgenerators/BlockFromNodesGeneratorFromFile.C:195 | The id is one more than the highest subdomain in use, or 0 when none is. In use means held by an active element here, or reported by another process. |
| MeshModel.Mesh.AddElem | src/meshgenerators/BlockFromNodesGeneratorFromFile.C:319 | The element is stored under its id, and `max_elem_id` and the unique-id bound move past it. |
| MeshModel.IdBounds | src/meshgenerators/BlockFromNodesGeneratorFromFile.C:289-290 | The bounds lie just above the highest id and the highest unique id, or are 0 for no elements. |
| MeshModel.Mesh.Absorb | src/meshgenerators/BlockFromNodesGeneratorFromFile.C:253-264 | Received elements and nodes are added, elements already held are kept, and the id bounds stay valid. |
| MeshModel.Mesh.AddLowerDimElems | src/meshgenerators/BlockFromNodesGeneratorFromFile.C:289-320 | The `add_elem` loop adds exactly `NewElems` to the old elements, with the bounds read once before it. |
| MeshModel.Mesh.ExchangeBoundaryElems | src/meshgenerators/BlockFromNodesGeneratorFromFile.C:211-268 | Only a distributed mesh exchanges. It fails exactly when gathering fails, and otherwise builds the plan `PushPlanFor` describes, takes in what arrives and rebuilds the side list. Elements held before are kept. |
| MeshModel.Mesh.AddSideElems | src/meshgenerators/BlockFromNodesGeneratorFromFile.C:270-320 | The round fails exactly when a matching local element is inactive, and then before any element is added. Otherwise the mesh gains exactly `NewElems` of the records. |
| MeshModel.Mesh.PrepareAndExchange | src/meshgenerators/BlockFromNodesGeneratorFromFile.C:197-268 | The mesh is prepared with remote elements kept, and then exchanges as `ExchangeBoundaryElems` states. |
| MeshModel.Mesh.PromoteBoundary | src/meshgenerators/BlockFromNodesGeneratorFromFile.C:195-320 | The round is exactly `RoundOf` from the mesh as it entered. The block is the next free id. A distributed mesh stops with the gathering error before anything is added, and otherwise promotes over what the exchange brought. The round fails with the inactive-parent error exactly when a matching local element is inactive, and then adds nothing. Otherwise it adds exactly the new elements of the recorded sides. The remote-removal flag is restored and the push plan is as `PushPlanFor` states. |
| MeshModel.Mesh.FinalizeBlock | src/meshgenerators/BlockFromNodesGeneratorFromFile.C:322-328 | The block is named and the mesh prepared once with partitioning skipped. `skip_partitioning` gets its old value back. |
| MeshModel.Mesh.AddBlock | src/meshgenerators/BlockFromNodesGeneratorFromFile.C:186-331 | One whole `GenerateBlock`: the round is exactly `RoundOf`, as for `PromoteBoundary`. On success the new block carries its name and the mesh is prepared a second time. Both flags end as they started, and the preparation log records exactly the calls made. |
| MeshModel.Mesh.AddNamedBlock | src/meshgenerators/BlockFromNodesGeneratorFromFile.C:136 | One named round: the round is exactly `RoundOf`, so it fails exactly on a gathering error or an inactive matching parent, and otherwise adds exactly the promoted sides in the next free block. On success that block carries the given name. Both flags are preserved. |
| MeshModel.Mesh.AddBlocks | src/meshgenerators/BlocksFromSideSetsGeneratorFromFile.C:123-129 | Round `i` runs on `targets[i]` with `exs[i]`, starting from where round `i - 1` ended. The run is exactly `RunOf`: every completed round and the one failed round satisfy `RoundOf`, and the run stops at the first error. Each block is named after its row, a later name winning on a reused id. |
| Geometry.With | src/meshgenerators/BlockFromNodesGenerator.C:130-131 | `p(j) = a` sets component `j` and leaves the other two alone. |
| BlockFromNodesGenerator.PointOf | src/meshgenerators/BlockFromNodesGenerator.C:130-131 | The point takes the coordinate's components, and the missing ones are 0. |
| BlockFromNodesGenerator.FirstMatch | src/meshgenerators/BlockFromNodesGenerator.C:140-151 | The result is the first node, in node order, within tolerance of the point, or none when no node is. |
| BlockFromNodesGenerator.FirstMatchIs | src/meshgenerators/BlockFromNodesGenerator.C:140-150 | A node within tolerance with none before it is the one chosen. |
| BlockFromNodesGenerator.CoordStepCases | src/meshgenerators/BlockFromNodesGenerator.C:112-170 | The checks come in order: too few components, then too many. For a point no process could locate, the error is exactly "Unable to locate". A coordinate that passes tags at most the first matching node of the located element, and on a replicated mesh it always tags one. |
| BlockFromNodesGenerator.TagWithAll | src/meshgenerators/BlockFromNodesGenerator.C:145-146 | The node is tagged with every requested boundary id and nothing else changes. |
| BlockFromNodesGenerator.TagCoordinate | src/meshgenerators/BlockFromNodesGenerator.C:113-169 | One pass of the coordinate loop returns `CoordStep`, and adds exactly the tags of the node it hit. |
| BlockFromNodesGenerator.TagCoordinates | src/meshgenerators/BlockFromNodesGenerator.C:112-170 | The loop returns the nodes hit, or the first coordinate's error. On success every hit node is tagged with every boundary id. |
| BlockFromNodesGenerator.BlockNameReadsBack | src/meshgenerators/BlockFromNodesGenerator.C:314 | The block name is 'f' followed by text that `stoi` reads back as the block id. |
| BlockFromNodesGenerator.BlockNamesDistinct | src/meshgenerators/BlockFromNodesGenerator.C:314-315 | Different block ids get different names. |
| BlockFromNodesGenerator.MarkBoundary | src/meshgenerators/BlockFromNodesGenerator.C:86-181 | On success:<br>- exactly the given local ids and the hit nodes are tagged with every boundary id;<br>- the nodesets are named;<br>- the mesh is unprepared unless a `BreakMeshByBlockGenerator` exists;<br>- the derived sides are appended. |
| BlockFromNodesGenerator.Generate | src/meshgenerators/BlockFromNodesGenerator.C:78-325 | A coordinate error is returned as is, with elements and sides unchanged. Otherwise tags and nodeset names are as `MarkBoundary` states, and the round over the new side list is exactly `RoundOf`. So the round fails exactly on a gathering error or an inactive matching parent, and otherwise adds exactly the promoted sides. On success the new block is named 'f' + id and the preparations happen as logged. Both flags are restored in every case. |
| FromNodesFile.IdsOf | src/meshgenerators/BlockFromNodesGeneratorFromFile.C:104-108 | There are exactly `k` ids, each the `unsigned` cast of `stoi` of the cell the `i`-th extra `getline` leaves. |
| FromNodesFile.IdCellPastEnd | src/meshgenerators/BlockFromNodesGeneratorFromFile.C:106 | Past the end of the line each `getline` clears the cell when the line ends with ','. Otherwise it leaves the cell as it was. |
| FromNodesFile.IdsOfFails | src/meshgenerators/BlockFromNodesGeneratorFromFile.C:104-108 | Reading the ids fails exactly when one of the `k` cells is not an `int`, and then with a `stoi` error. |
| FromNodesFile.RowShape | src/meshgenerators/BlockFromNodesGeneratorFromFile.C:93-111 | A row adds at most one name and one count, and exactly as many ids as its count, all below 2^32. |
| FromNodesFile.ZeroCountRow | src/meshgenerators/BlockFromNodesGeneratorFromFile.C:96-97 | A line whose column 1 trims to "0" contributes nothing from column 1 on. Only the name can come from column 0. |
| FromNodesFile.ZeroRowOf | src/meshgenerators/BlockFromNodesGeneratorFromFile.C:96-97 | The line "a,0" adds the name `a` and no count. |
| FromNodesFile.ReadTwo | src/meshgenerators/BlockFromNodesGeneratorFromFile.C:89-112 | Two lines read as the first line's row followed by the second's. |
| FromNodesFile.SingleGroup | src/meshgenerators/BlockFromNodesGeneratorFromFile.C:122-123 | With a single count, group 0 is the whole id list. |
| FromNodesFile.ZeroCountRowMisaligns | src/meshgenerators/BlockFromNodesGeneratorFromFile.C:96-97 | A row "a,0" (count 0) before a full row naming `b` with ids `ids` reads as the names [a, b], the single count of `b`, and `b`'s ids. The first group, which `generate()` pairs with `a`, is all of `b`'s ids, and `b` has no count of its own. |
| FromNodesFile.IdsOfEach | src/meshgenerators/BlockFromNodesGeneratorFromFile.C:104-108 | Cells that each hold a number in range read back as those numbers. |
| FromNodesFile.RowLineCells | src/meshgenerators/BlockFromNodesGeneratorFromFile.C:94 | The cells of a written row are its name, its count and its ids. |
| FromNodesFile.DecimalIdsReadBack | src/meshgenerators/BlockFromNodesGeneratorFromFile.C:104-108 | The id cells of a written row read back as its ids. |
| FromNodesFile.RowCellsReadBack | src/meshgenerators/BlockFromNodesGeneratorFromFile.C:94-111 | The cells of a written row decode as its name, its count and its ids. |
| FromNodesFile.RowLineReadsBack | src/meshgenerators/BlockFromNodesGeneratorFromFile.C:89-112 | A row written with a plain name, a count of at least one and ids in range reads back as that name, count and ids. |
| FromNodesFile.ReadRowsShape | src/meshgenerators/BlockFromNodesGeneratorFromFile.C:89-112 | After any file the id list holds exactly as many ids as the counts add up to, each below 2^32. |
| FromNodesFile.Group | src/meshgenerators/BlockFromNodesGeneratorFromFile.C:122-123 | Group `i` has exactly `offsets[i]` ids. |
| FromNodesFile.GroupAt | src/meshgenerators/BlockFromNodesGeneratorFromFile.C:119-124 | Group `i` is the slice that starts at the sum of the earlier counts. The next group starts where it ends, inside the id list. |
| FromNodesFile.GroupsCover | src/meshgenerators/BlockFromNodesGeneratorFromFile.C:119-128 | The first `n` groups, one after the other, are exactly the prefix of the id list the first `n` counts cover. |
| FromNodesFile.NodesetTagsMembers | src/meshgenerators/BlockFromNodesGeneratorFromFile.C:158-165 | After the nodeset rounds a node carries a boundary id exactly when it is held here and lies in the group of a block with that id. |
| FromNodesFile.BlockFromNodesGeneratorFromFile.ParseRow | src/meshgenerators/BlockFromNodesGeneratorFromFile.C:90-111 | The cell loop of one line computes `RowOf`. |
| FromNodesFile.BlockFromNodesGeneratorFromFile.ParseCells | src/meshgenerators/BlockFromNodesGeneratorFromFile.C:94-111 | The cell loop over given cells computes `RowOfCells`: the early stop on "0", the name, the count and its ids. |
| FromNodesFile.BlockFromNodesGeneratorFromFile.ReadIds | src/meshgenerators/BlockFromNodesGeneratorFromFile.C:104-108 | The id loop computes `IdsOf`, including the `getline` calls past the end of the line. |
| FromNodesFile.BlockFromNodesGeneratorFromFile.Load | src/meshgenerators/BlockFromNodesGeneratorFromFile.C:82-112 | The lists are exactly `ReadRows` of the file's lines, or construction fails with the first error. On success the id list matches the counts. |
| FromNodesFile.BlockFromNodesGeneratorFromFile.GenerateNodeSet | src/meshgenerators/BlockFromNodesGeneratorFromFile.C:142-173 | The held ids of the group are tagged with the boundary id and the nodeset is named. The mesh stays prepared only when it was and a `BreakMeshByBlockGenerator` exists. |
| FromNodesFile.BlockFromNodesGeneratorFromFile.NodesetRound | src/meshgenerators/BlockFromNodesGeneratorFromFile.C:120-128 | Round `i` tags group `i`, names its nodeset, and advances `idx` by `offsets[i]`: the tags, nodeset names and preparedness of the first `i` rounds become those of the first `i + 1`. |
| FromNodesFile.BlockFromNodesGeneratorFromFile.TagNodesets | src/meshgenerators/BlockFromNodesGeneratorFromFile.C:119-128 | The first loop tags exactly the groups of the first blocks, as many as there are both names and counts, and names their nodesets. With more names than counts it then fails with the read past the end of the counts. |
| FromNodesFile.BlockFromNodesGeneratorFromFile.MarkNodesets | src/meshgenerators/BlockFromNodesGeneratorFromFile.C:119-130 | The nodeset loop, then the derived sides appended. A read past the end of the counts stops it before the sides change. |
| FromNodesFile.BlockFromNodesGeneratorFromFile.PromoteBlocks | src/meshgenerators/BlockFromNodesGeneratorFromFile.C:132-137 | The block loop: the run is exactly `RunOf` with one target per block name, node tags and nodeset names are unchanged, and each block is named after its row. |
| FromNodesFile.BlockFromNodesGeneratorFromFile.Generate | src/meshgenerators/BlockFromNodesGeneratorFromFile.C:116-139 | Tags and nodeset names are as `TagNodesets` states. With more names than counts the result is the read past the end, and elements, sides and subdomain names are unchanged. Otherwise the block rounds over the side list with the derived sides appended are exactly `RunOf`, and each block is named after its row. Both flags are preserved. |
| FromSidesetsFile.Trimmed | src/meshgenerators/BlocksFromSideSetsGeneratorFromFile.C:82 | Every cell has its trailing white space erased. |
| FromSidesetsFile.Kept | src/meshgenerators/BlocksFromSideSetsGeneratorFromFile.C:80-85 | Exactly the trimmed cells 0 through `col_index` are kept, or all of them when the line is shorter. |
| FromSidesetsFile.KeptWhole | src/meshgenerators/BlocksFromSideSetsGeneratorFromFile.C:80-85 | A short line without trailing white space keeps its cells unchanged. |
| FromSidesetsFile.RowOfKeptCases | src/meshgenerators/BlocksFromSideSetsGeneratorFromFile.C:87-93 | A row is skipped exactly when its flag reads as 0. A kept row has all three cells, a non-zero flag, the 16-bit cast of its id and the name from column 2. Every error is the format error or a `stoi` error. |
| FromSidesetsFile.RowAsWrittenReadsPastEnd | src/meshgenerators/BlocksFromSideSetsGeneratorFromFile.C:87-92 | The code as written reads past the end exactly for a flagged row with a valid id and only two kept cells. On every other row it agrees with the corrected reading. |
| FromSidesetsFile.ShortFlaggedLine | src/meshgenerators/BlocksFromSideSetsGeneratorFromFile.C:87-92 | The line "5,1" passes the size check and, as written, reads `cells[2]`. The corrected reading reports the format error. |
| FromSidesetsFile.NameColumnOneReadsPastEnd | src/meshgenerators/BlocksFromSideSetsGeneratorFromFile.C:83-92 | With `block_name_column_index` 1, every flagged row with a valid id reads past the end. |
| FromSidesetsFile.ReadRowsShape | src/meshgenerators/BlocksFromSideSetsGeneratorFromFile.C:95-97 | Every id has a name and every id is below 2^16. |
| FromSidesetsFile.RowLineCells | src/meshgenerators/BlocksFromSideSetsGeneratorFromFile.C:80-85 | The cells of a written flagged row are its id, the flag and its name, with nothing to trim. |
| FromSidesetsFile.RowCellsParse | src/meshgenerators/BlocksFromSideSetsGeneratorFromFile.C:89-93 | The three cells of a flagged row with a 16-bit id decode as that row. |
| FromSidesetsFile.RowLineReadsBack | src/meshgenerators/BlocksFromSideSetsGeneratorFromFile.C:74-97 | A written flagged row reads back as that row, for any name column from 2 on. |
| FromSidesetsFile.SkippedLineReadsBack | src/meshgenerators/BlocksFromSideSetsGeneratorFromFile.C:89-90 | A row written with flag 0 adds nothing. |
| FromSidesetsFile.RowLinesReadBack | src/meshgenerators/BlocksFromSideSetsGeneratorFromFile.C:74-103 | A file written row by row reads back as the same ids and names, in order. |
| FromSidesetsFile.SkippedLineAddsNothing | src/meshgenerators/BlocksFromSideSetsGeneratorFromFile.C:90 | Appending a line with flag 0 leaves the table unchanged. |
| FromSidesetsFile.BlocksFromSideSetsGeneratorFromFile.KeepCells | src/meshgenerators/BlocksFromSideSetsGeneratorFromFile.C:79-85 | The cell loop keeps exactly `Kept`. |
| FromSidesetsFile.BlocksFromSideSetsGeneratorFromFile.ParseRow | src/meshgenerators/BlocksFromSideSetsGeneratorFromFile.C:75-97 | One line reads as `RowOf`, with the missing name reported as the format error. |
| FromSidesetsFile.BlocksFromSideSetsGeneratorFromFile.Load | src/meshgenerators/BlocksFromSideSetsGeneratorFromFile.C:66-103 | The three lists are exactly `ReadRows` of the file's lines, or construction fails with the first error. On success they have equal length, the block names equal the sideset names, and every id is below 2^16. |
| FromSidesetsFile.BlocksFromSideSetsGeneratorFromFile.Generate | src/meshgenerators/BlocksFromSideSetsGeneratorFromFile.C:119-130 | One `generate2` round per row, in file order: the run is exactly `RunOf` with one target per sideset name, and it stops at the first error. Each block carries its row's block name. Node tags, nodeset names and both flags are preserved. |

## Left out

- MPI collectives (`allgather`, `comm().max`, `push_parallel_packed_range`) are not modelled. What the other processes contribute is an input: `Exchange` for the promotion, `Remote` for the located point. The model follows one process.
- The internals of `prepare_for_use` are not modelled. A call is recorded with the flags in force, because the source's promise is about those flags.
- `build_side_ptr` geometry is not modelled: a new element records its parent, owner, block and ids, not its nodes.
- `build_side_list_from_node_list`, `reconnect_nodes`, `getBoundaryIDs`, the point locator and `absolute_fuzzy_equals` are not modelled. They are libMesh/MOOSE functions whose code is not part of this model, and their results are parameters.
- `std::stod` is a parameter. Floating-point parsing is not modelled, and real values are only copied.
- Opening the file, including the "Unable to open file" error, is not modelled. A file is its content as a string.
- The timestamped logging to `perm.txt` in `PorousFlowPermeabilityAllBlocks` is output only, so it is left out.
- `connected_node_ids` is built but never used by the source, so it is left out.
- `hasBreakMeshByBlockGenerator()` is a boolean input.
- src/meshgenerators/GetMeshInfo.C (output only) and src/base/z01App.C (registration) are not part of this model. "src/materials/PorousFlowPorosityAllBlocks copy.C" is a stale duplicate of PorousFlowPorosityAllBlocks.C and is not part of this model either.
- The AD instantiations are modelled only by the flag `isAd`, which skips the derivative arrays.
- The per-quadrature-point arrays are modelled as the values of the current point.
- `_sideset_ids` is read and stored but never used by `generate`.
- MeshModel.Mesh.NextFreeSubdomainId: the `set_union` across processes in `subdomain_ids` is not modelled. The other processes' subdomains are an input (`Exchange.subdomains`), joined to the subdomains of this process's active elements. The 16-bit wrap-around of the id at 65535 is not modelled either.
- FromNodesFile.BlockFromNodesGeneratorFromFile.Generate: with more block names than counts, the source reads `_node_offsets` past its end, which is undefined behaviour. The model stops there with `OutOfBounds`, after the nodesets it could make. A row whose count is 0 is how such a file arises (`FromNodesFile.ZeroCountRowMisaligns`). Even with enough counts, names and groups then pair up shifted, and the model keeps that pairing as the source has it.
- MeshModel.Mesh.AddBlocks: after the first round, a round's starting id counters are only known to lie above every id in use (`Below`), not tied to the previous round's counters. Block ids are proved ordered only when the other processes' subdomains grow from round to round (`MeshModel.RunBlocksOrdered`), because those subdomains are inputs.

## Findings

| source | as written | input that shows it | evidently intended | confidence | as-written member | corrected member |
|---|---|---|---|---|---|---|
| src/meshgenerators/BlocksFromSideSetsGeneratorFromFile.C:87-92 | The size check rejects only rows with at most one kept cell, then reads `cells[2]` | The line "5,1" (flag set, no name); or any flagged row when `block_name_column_index` is 1 | A row without a name cell is the format error the check announces | not executed | FromSidesetsFile.RowAsWritten | FromSidesetsFile.RowOfKept |
| src/materials/PorousFlowPorosityAllBlocks.C:71-73 | The guard `block_id - 1 >= 0 \|\| size <= block_id` holds for every block from 1 on, so a block beyond the table reads past its end (the same guard is at src/materials/PorousFlowPermeabilityAllBlocks.C:91-92) | The table [0.25] and block 2 | `1 <= block_id <= size`, with "Block ID ... not found" otherwise | not executed | BlockTable.BlockValueAsWritten | BlockTable.BlockValue |
