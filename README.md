# AGREE Redlog back end, modelled in Dafny

This project models the Redlog back end of AGREE, the assume-guarantee
contract verifier for AADL models. It also models the sequential
bookkeeping of the two verification handlers that drive it.

- **Expression rewriting.** `ExprConverter` scope-prefixes identifiers,
  turns `pre e` into a marker on the prefix one temporal order higher,
  expands if-then-else, inlines node calls and records the order of every
  name. It also summarises the highest order of each name. The builder's
  simpler `addPrefixToExpr` and the generic `IdRewriteVisitor` are
  modelled too.
- **Contract composition.** `RedlogAstBuilder.getContractRedlogProgram`
  flattens the top node into lower-cased boundary and component variables,
  one prefixed contract per sub-component, one equality per connection and
  one `__GUARANTEE<i>` property per top-level guarantee.
- **Script serialisation.** `RedlogProgram` checks variable types, picks the
  `rlset` domain, finds the component variables attached to the system
  boundary and prints the Redlog script, whose underscores are escaped.
- **Result protocol.** `RedlogApi` reads the two sentinel bands of the
  solver's output, picks the verdict and extracts the counterexample.
  `XmlWriter` writes the XML lines, and `XmlParseThread` groups and reads
  them back into a `RedlogResult`.
- **Bookkeeping.** `AgreeResultsLinker` holds seven maps. `VerifyHandler`
  and `VerifyComposedContract` cover cause-chain messages, Kind 2 property
  numbering, reference strings, renamings, `createVerification`, `runJob`
  and the queue drain of `doAnalysis`.

Each source file is one module: `ExprConverter`, `IdRewrite`,
`RedlogAstBuilder`, `RedlogScript` (for `RedlogProgram.java`), `RedlogApi`,
`XmlWriter`, `XmlParseThread` (which also holds `RedlogResult`),
`ResultsLinker`, `VerifyHandler` and `VerifyComposedContract`. Three shared
modules sit beside them:

- `Wrappers` defines `Option` and `Result`. Java's null and its exceptions
  become these.
- `Text` holds the Java string operations used.
- `Ast` holds the jkind and AGREE syntax: expressions, types, variables,
  nodes, contracts and the printer that stands in for `Expr.toString`.

Classes whose fields the source updates in place are Dafny classes. Their
methods are proved against specification functions, and the properties are
proved about those functions.

The constants are modelled as follows:

- The `pre` marker is the string `Pre__`. `ExprConverter` names it
  `RedlogAstBuilder.preSuffix`, a field that `RedlogAstBuilder.java` does
  not declare; the builder itself writes the literal `"Pre__"`. Both
  rewriters use the one constant `RedlogAstBuilder.PreSuffix`.
- AGREE's `dotChar` is `__` and its clock suffix is `___CLOCK_`. Neither is
  visible in these files, so both are constants of the model.

## Model

| member | source | states |
|---|---|---|
| `ExprConverter.Converter.constructor` | agree/com.rockwellcollins.atc.agree.analysis/src/com/rockwellcollins/atc/agree/analysis/redlog/ExprConverter.java:56-84 | The fields agree with the conversion of the original expression at order 0 with null bindings; on success the highest order is the largest key of the order table (0 if empty) and the zero-order list is the order-0 set or null. With the per-root step corrected (see Findings), every root name is mapped to the highest order it occurs at |
| `ExprConverter.Converter.Summarize` | agree/com.rockwellcollins.atc.agree.analysis/src/com/rockwellcollins/atc/agree/analysis/redlog/ExprConverter.java:69-83 | The summary loop, with its per-root step corrected (see Findings), leaves the highest order, the zero-order list and the per-root highest orders of the order table in the fields |
| `ExprConverter.SummarizeTable` | agree/com.rockwellcollins.atc.agree.analysis/src/com/rockwellcollins/atc/agree/analysis/redlog/ExprConverter.java:71-83 | Corrected loop (see Findings): whatever order the HashMap yields its keys in, it finds the largest order and maps each root name to the highest order at which a name with that root was recorded |
| `ExprConverter.NoteNames` | agree/com.rockwellcollins.atc.agree.analysis/src/com/rockwellcollins/atc/agree/analysis/redlog/ExprConverter.java:75-82 | Corrected inner loop (see Findings): over one order's names, in any order, it keeps the summary exact for every pair seen so far |
| `ExprConverter.Note` | agree/com.rockwellcollins.atc.agree.analysis/src/com/rockwellcollins/atc/agree/analysis/redlog/ExprConverter.java:77-80 | One corrected summary step: the root becomes a key holding the larger of its old order and the new one; every other key keeps its order |
| `ExprConverter.NoteKeeps` | agree/com.rockwellcollins.atc.agree.analysis/src/com/rockwellcollins/atc/agree/analysis/redlog/ExprConverter.java:75-81 | A corrected summary step keeps the summary exact when one more (order, name) pair is seen |
| `ExprConverter.StripMarkers` | agree/com.rockwellcollins.atc.agree.analysis/src/com/rockwellcollins/atc/agree/analysis/redlog/ExprConverter.java:76 | Removing the markers from a name with any number of leading markers gives the root of the unmarked name |
| `ExprConverter.AsWrittenLosesHighestOrder` | agree/com.rockwellcollins.atc.agree.analysis/src/com/rockwellcollins/atc/agree/analysis/redlog/ExprConverter.java:77-80 | As written, the summary of `pre^17(x) + pre(x)`, visiting order 17 first, maps `x` to 1 although `x` occurs at order 17 |
| `ExprConverter.Reconstruct` | agree/com.rockwellcollins.atc.agree.analysis/src/com/rockwellcollins/atc/agree/analysis/redlog/ExprConverter.java:91-159 | The conversion never turns null node-call bindings into non-null ones; what it computes is stated by the lemmas below |
| `ExprConverter.Converter.ExprReconstruct` | agree/com.rockwellcollins.atc.agree.analysis/src/com/rockwellcollins/atc/agree/analysis/redlog/ExprConverter.java:91-159 | The method's result and its new bindings and order table are those of the conversion function, exception included |
| `ExprConverter.Converter.ReconstructIdExpr` | agree/com.rockwellcollins.atc.agree.analysis/src/com/rockwellcollins/atc/agree/analysis/redlog/ExprConverter.java:96-109 | Same agreement for an identifier |
| `ExprConverter.Converter.ReconstructBoundId` | agree/com.rockwellcollins.atc.agree.analysis/src/com/rockwellcollins/atc/agree/analysis/redlog/ExprConverter.java:111-120 | Same agreement for an identifier inside a node call, whose bindings are hidden and then restored |
| `ExprConverter.Converter.ReconstructRecordAccessExpr` | agree/com.rockwellcollins.atc.agree.analysis/src/com/rockwellcollins/atc/agree/analysis/redlog/ExprConverter.java:121-122 | Same agreement for a record access |
| `ExprConverter.Converter.ReconstructUnaryExpr` | agree/com.rockwellcollins.atc.agree.analysis/src/com/rockwellcollins/atc/agree/analysis/redlog/ExprConverter.java:123-128 | Same agreement for a unary operator, `pre` included |
| `ExprConverter.Converter.ReconstructBinaryExpr` | agree/com.rockwellcollins.atc.agree.analysis/src/com/rockwellcollins/atc/agree/analysis/redlog/ExprConverter.java:129-130 | Same agreement for a binary operator |
| `ExprConverter.Converter.ReconstructIfThenElseExpr` | agree/com.rockwellcollins.atc.agree.analysis/src/com/rockwellcollins/atc/agree/analysis/redlog/ExprConverter.java:131-137 | Same agreement for an if-then-else |
| `ExprConverter.Converter.ReconstructNodeCall` | agree/com.rockwellcollins.atc.agree.analysis/src/com/rockwellcollins/atc/agree/analysis/redlog/ExprConverter.java:140-156 | Same agreement for a node call, with the bindings cleared afterwards |
| `ExprConverter.ReconstructShape` | agree/com.rockwellcollins.atc.agree.analysis/src/com/rockwellcollins/atc/agree/analysis/redlog/ExprConverter.java:91-159 | Every successful conversion leaves no `pre`, no if-then-else and no node call, and removes no name from the order table |
| `ExprConverter.ShapeBound` | agree/com.rockwellcollins.atc.agree.analysis/src/com/rockwellcollins/atc/agree/analysis/redlog/ExprConverter.java:111-120 | The same for an identifier inside a node call |
| `ExprConverter.ShapeBinary` | agree/com.rockwellcollins.atc.agree.analysis/src/com/rockwellcollins/atc/agree/analysis/redlog/ExprConverter.java:129-130 | The same for a binary expression |
| `ExprConverter.ShapeIfThenElse` | agree/com.rockwellcollins.atc.agree.analysis/src/com/rockwellcollins/atc/agree/analysis/redlog/ExprConverter.java:131-137 | The same for an if-then-else |
| `ExprConverter.ShapeCall` | agree/com.rockwellcollins.atc.agree.analysis/src/com/rockwellcollins/atc/agree/analysis/redlog/ExprConverter.java:140-156 | The same for a node call |
| `ExprConverter.ReconstructCallFree` | agree/com.rockwellcollins.atc.agree.analysis/src/com/rockwellcollins/atc/agree/analysis/redlog/ExprConverter.java:91-139 | Outside node calls a call-free expression converts to its translation: names prefixed, `pre` as markers, if-then-else expanded, the rest kept. The bindings stay null and the table gains exactly the expression's (order, prefixed name) occurrences |
| `ExprConverter.PairsRecord` | agree/com.rockwellcollins.atc.agree.analysis/src/com/rockwellcollins/atc/agree/analysis/redlog/ExprConverter.java:100-107 | Recording a name at an order adds exactly that pair to the table |
| `ExprConverter.UnsupportedRejected` | agree/com.rockwellcollins.atc.agree.analysis/src/com/rockwellcollins/atc/agree/analysis/redlog/ExprConverter.java:157-158 | Without node calls the conversion succeeds exactly when every construct is handled; otherwise it raises the AGREE exception for an unhandled construct, with the rejection message |
| `ExprConverter.ReconstructInCall` | agree/com.rockwellcollins.atc.agree.analysis/src/com/rockwellcollins/atc/agree/analysis/redlog/ExprConverter.java:111-120 | Inside a node call, converting the body equals converting the body with the actual arguments substituted for the formals, each argument under the `pre`s around its formal |
| `ExprConverter.InCallBinary` | agree/com.rockwellcollins.atc.agree.analysis/src/com/rockwellcollins/atc/agree/analysis/redlog/ExprConverter.java:129-130 | The same for a binary expression inside a call |
| `ExprConverter.InCallIfThenElse` | agree/com.rockwellcollins.atc.agree.analysis/src/com/rockwellcollins/atc/agree/analysis/redlog/ExprConverter.java:131-137 | The same for an if-then-else inside a call |
| `ExprConverter.BinaryCompose` | agree/com.rockwellcollins.atc.agree.analysis/src/com/rockwellcollins/atc/agree/analysis/redlog/ExprConverter.java:129-130 | A binary expression converts to the operator over the converted operands, left first |
| `ExprConverter.IfThenElseCompose` | agree/com.rockwellcollins.atc.agree.analysis/src/com/rockwellcollins/atc/agree/analysis/redlog/ExprConverter.java:131-137 | An if-then-else converts to `(c' and t') or ((not c') and f')`, with the one converted condition used twice |
| `ExprConverter.NodeCallInlined` | agree/com.rockwellcollins.atc.agree.analysis/src/com/rockwellcollins/atc/agree/analysis/redlog/ExprConverter.java:140-156 | A call of a known node converts like that node's first equation with the arguments substituted by position, leaving the bindings null |
| `ExprConverter.UnknownNodeIsNull` | agree/com.rockwellcollins.atc.agree.analysis/src/com/rockwellcollins/atc/agree/analysis/redlog/ExprConverter.java:140-156 | A call of an unknown node converts to null, and a binary operator over that null fails on its null operand |
| `ExprConverter.FindNode` | agree/com.rockwellcollins.atc.agree.analysis/src/com/rockwellcollins/atc/agree/analysis/redlog/ExprConverter.java:142-143 | The node found has the called name, and no node has it when none is found |
| `ExprConverter.BindBinds` | agree/com.rockwellcollins.atc.agree.analysis/src/com/rockwellcollins/atc/agree/analysis/redlog/ExprConverter.java:144-147 | Binding binds every formal, each to one of the actuals |
| `ExprConverter.PreDepth` | agree/com.rockwellcollins.atc.agree.analysis/src/com/rockwellcollins/atc/agree/analysis/redlog/ExprConverter.java:124-125 | `n` nested `pre`s around an identifier give one name with `n` markers before the prefix, recorded at order `n` higher |
| `ExprConverter.MarkersMatchOrder` | agree/com.rockwellcollins.atc.agree.analysis/src/com/rockwellcollins/atc/agree/analysis/redlog/ExprConverter.java:124-125 | Every recorded name starts with as many markers as its order is above the starting order, followed by the prefix |
| `ExprConverter.AgreesWithAddPrefix` | agree/com.rockwellcollins.atc.agree.analysis/src/com/rockwellcollins/atc/agree/analysis/redlog/RedlogAstBuilder.java:117-148 | On the fragment both accept, the conversion computes what addPrefixToExpr computes |
| `IdRewrite.Rewrite` | agree/com.rockwellcollins.atc.agree.analysis/src/com/rockwellcollins/atc/agree/analysis/lustre/visitors/IdRewriteVisitor.java:41-148 | The visitor succeeds exactly when no array, tuple, quantifier or inductive-data construct occurs |
| `IdRewrite.RewriteList` | agree/com.rockwellcollins.atc.agree.analysis/src/com/rockwellcollins/atc/agree/analysis/lustre/visitors/IdRewriteVisitor.java:130-138 | A list is rewritten exactly when each element can be, keeping its length |
| `IdRewrite.RewriteFields` | agree/com.rockwellcollins.atc.agree.analysis/src/com/rockwellcollins/atc/agree/analysis/lustre/visitors/IdRewriteVisitor.java:106-113 | A record's fields are rewritten under exactly the same keys |
| `IdRewrite.IdentityRewrite` | agree/com.rockwellcollins.atc.agree.analysis/src/com/rockwellcollins/atc/agree/analysis/lustre/visitors/IdRewriteVisitor.java:56-128 | With the identity rewriter every supported expression is copied unchanged, so every construct keeps its shape, operator, type and field |
| `IdRewrite.IdentityRewriteList` | agree/com.rockwellcollins.atc.agree.analysis/src/com/rockwellcollins/atc/agree/analysis/lustre/visitors/IdRewriteVisitor.java:130-138 | The same for argument lists |
| `IdRewrite.IdentityRewriteFields` | agree/com.rockwellcollins.atc.agree.analysis/src/com/rockwellcollins/atc/agree/analysis/lustre/visitors/IdRewriteVisitor.java:106-113 | The same for record fields |
| `IdRewrite.RenameIds` | agree/com.rockwellcollins.atc.agree.analysis/src/com/rockwellcollins/atc/agree/analysis/lustre/visitors/IdRewriteVisitor.java:76-79 | With a renamer, the identifiers of the result are exactly the renamed identifiers of the input |
| `IdRewrite.RenameIdsList` | agree/com.rockwellcollins.atc.agree.analysis/src/com/rockwellcollins/atc/agree/analysis/lustre/visitors/IdRewriteVisitor.java:130-138 | The same for argument lists |
| `IdRewrite.RenameIdsFields` | agree/com.rockwellcollins.atc.agree.analysis/src/com/rockwellcollins/atc/agree/analysis/lustre/visitors/IdRewriteVisitor.java:106-113 | The same for record fields |
| `RedlogAstBuilder.AddPrefixToExpr` | agree/com.rockwellcollins.atc.agree.analysis/src/com/rockwellcollins/atc/agree/analysis/redlog/RedlogAstBuilder.java:117-148 | Succeeds exactly on the supported fragment, whose only unary operator is `pre`. A result holds no unary operator, and a failure is the AGREE exception with the rejection message |
| `RedlogAstBuilder.AddPrefixToList` | agree/com.rockwellcollins.atc.agree.analysis/src/com/rockwellcollins/atc/agree/analysis/redlog/RedlogAstBuilder.java:140-143 | Node-call arguments are prefixed one by one, keeping their number; the first failure is the list's failure |
| `RedlogAstBuilder.PreChain` | agree/com.rockwellcollins.atc.agree.analysis/src/com/rockwellcollins/atc/agree/analysis/redlog/RedlogAstBuilder.java:126-129 | `n` nested `pre`s equal prefixing the operand under `n` markers |
| `RedlogAstBuilder.PreIdentifier` | agree/com.rockwellcollins.atc.agree.analysis/src/com/rockwellcollins/atc/agree/analysis/redlog/RedlogAstBuilder.java:122-129 | An identifier under `n` `pre`s becomes one identifier carrying `n` markers before the prefix |
| `RedlogAstBuilder.PrefixIsRenaming` | agree/com.rockwellcollins.atc.agree.analysis/src/com/rockwellcollins/atc/agree/analysis/redlog/RedlogAstBuilder.java:117-148 | Without unary operators, addPrefixToExpr is the generic identifier rewrite with the prefixing renamer, so if-then-else and calls keep their shape |
| `RedlogAstBuilder.PrefixIsRenamingList` | agree/com.rockwellcollins.atc.agree.analysis/src/com/rockwellcollins/atc/agree/analysis/redlog/RedlogAstBuilder.java:140-145 | The same for argument lists |
| `RedlogAstBuilder.PrefixedIds` | agree/com.rockwellcollins.atc.agree.analysis/src/com/rockwellcollins/atc/agree/analysis/redlog/RedlogAstBuilder.java:122-123 | Without unary operators, the result's identifiers are exactly the input's identifiers with the prefix |
| `RedlogAstBuilder.BoundaryVariables` | agree/com.rockwellcollins.atc.agree.analysis/src/com/rockwellcollins/atc/agree/analysis/redlog/RedlogAstBuilder.java:45-52 | System inputs and outputs keep order, type and provenance; only their names are lower-cased |
| `RedlogAstBuilder.LowerAll` | agree/com.rockwellcollins.atc.agree.analysis/src/com/rockwellcollins/atc/agree/analysis/redlog/RedlogAstBuilder.java:45-52 | The copy loop yields the lower-cased variable list |
| `RedlogAstBuilder.QualifiedMembers` | agree/com.rockwellcollins.atc.agree.analysis/src/com/rockwellcollins/atc/agree/analysis/redlog/RedlogAstBuilder.java:74-82 | A qualified variable is exactly some variable renamed to lower-case `node.id + dotChar + id` |
| `RedlogAstBuilder.NodeMembers` | agree/com.rockwellcollins.atc.agree.analysis/src/com/rockwellcollins/atc/agree/analysis/redlog/RedlogAstBuilder.java:75-82 | A sub-node contributes exactly its qualified inputs and outputs |
| `RedlogAstBuilder.QualifyAll` | agree/com.rockwellcollins.atc.agree.analysis/src/com/rockwellcollins/atc/agree/analysis/redlog/RedlogAstBuilder.java:75-82 | The qualifying loop appends the qualified variables to what is already there |
| `RedlogAstBuilder.ComponentVariablesMembers` | agree/com.rockwellcollins.atc.agree.analysis/src/com/rockwellcollins/atc/agree/analysis/redlog/RedlogAstBuilder.java:71-82 | The component variables are exactly the qualified inputs and outputs of the sub-nodes |
| `RedlogAstBuilder.CollectExprs` | agree/com.rockwellcollins.atc.agree.analysis/src/com/rockwellcollins/atc/agree/analysis/redlog/RedlogAstBuilder.java:56-58 | The loop collects each statement's expression, in order |
| `RedlogAstBuilder.PropertiesDistinct` | agree/com.rockwellcollins.atc.agree.analysis/src/com/rockwellcollins/atc/agree/analysis/redlog/RedlogAstBuilder.java:60-66 | The guarantee property names are pairwise distinct |
| `RedlogAstBuilder.GuaranteeNamesDiffer` | agree/com.rockwellcollins.atc.agree.analysis/src/com/rockwellcollins/atc/agree/analysis/redlog/RedlogAstBuilder.java:63 | Distinct counters give distinct `__GUARANTEE` names |
| `RedlogAstBuilder.SystemContractsEntries` | agree/com.rockwellcollins.atc.agree.analysis/src/com/rockwellcollins/atc/agree/analysis/redlog/RedlogAstBuilder.java:60-69 | Every contract-map entry is the key of one of the first `n` guarantees and holds the system contract |
| `RedlogAstBuilder.KeyFresh` | agree/com.rockwellcollins.atc.agree.analysis/src/com/rockwellcollins/atc/agree/analysis/redlog/RedlogAstBuilder.java:60-69 | The next guarantee's key is not yet in the map |
| `RedlogAstBuilder.SystemContractsSize` | agree/com.rockwellcollins.atc.agree.analysis/src/com/rockwellcollins/atc/agree/analysis/redlog/RedlogAstBuilder.java:60-69 | After `n` guarantees the map has `n` entries |
| `RedlogAstBuilder.SystemContractsKeys` | agree/com.rockwellcollins.atc.agree.analysis/src/com/rockwellcollins/atc/agree/analysis/redlog/RedlogAstBuilder.java:60-69 | Every guarantee so far has its key in the map |
| `RedlogAstBuilder.SystemContractsMeaning` | agree/com.rockwellcollins.atc.agree.analysis/src/com/rockwellcollins/atc/agree/analysis/redlog/RedlogAstBuilder.java:60-69 | One boolean key per guarantee, named like its property; exactly that many entries, each holding the system contract with all assumptions and all guarantees |
| `RedlogAstBuilder.SystemGuarantees` | agree/com.rockwellcollins.atc.agree.analysis/src/com/rockwellcollins/atc/agree/analysis/redlog/RedlogAstBuilder.java:54-69 | The top-level loops yield the property names `__GUARANTEE0..n-1` and the contract map |
| `RedlogAstBuilder.ConnectionsArePairs` | agree/com.rockwellcollins.atc.agree.analysis/src/com/rockwellcollins/atc/agree/analysis/redlog/RedlogAstBuilder.java:100-113 | Each connection gives `source = destination` in connection order, each end qualified by its component only when it has one |
| `RedlogAstBuilder.ConnectionsAttach` | agree/com.rockwellcollins.atc.agree.analysis/src/com/rockwellcollins/atc/agree/analysis/redlog/RedlogAstBuilder.java:100-113 | The constraints built never make the boundary search fail |
| `RedlogAstBuilder.AddConnectionConstraints` | agree/com.rockwellcollins.atc.agree.analysis/src/com/rockwellcollins/atc/agree/analysis/redlog/RedlogAstBuilder.java:100-113 | The loop appends one constraint per connection, in order |
| `RedlogAstBuilder.PrefixAllMeaning` | agree/com.rockwellcollins.atc.agree.analysis/src/com/rockwellcollins/atc/agree/analysis/redlog/RedlogAstBuilder.java:83-88 | A statement list is prefixed exactly when each expression can be, element by element; a failure is a rejection |
| `RedlogAstBuilder.PrefixStatements` | agree/com.rockwellcollins.atc.agree.analysis/src/com/rockwellcollins/atc/agree/analysis/redlog/RedlogAstBuilder.java:83-88 | The statement loop yields the prefixed expressions or the first rejection |
| `RedlogAstBuilder.ComponentContractsMeaning` | agree/com.rockwellcollins.atc.agree.analysis/src/com/rockwellcollins/atc/agree/analysis/redlog/RedlogAstBuilder.java:71-90 | One contract per sub-node, in order, and a failure exactly when some sub-node's contract fails |
| `RedlogAstBuilder.ComponentContractShape` | agree/com.rockwellcollins.atc.agree.analysis/src/com/rockwellcollins/atc/agree/analysis/redlog/RedlogAstBuilder.java:71-90 | A sub-node's contract is named after it and holds each assumption and guarantee prefixed by `id + dotChar`; it fails exactly when one of them cannot be prefixed |
| `RedlogAstBuilder.ComponentFails` | agree/com.rockwellcollins.atc.agree.analysis/src/com/rockwellcollins/atc/agree/analysis/redlog/RedlogAstBuilder.java:84-88 | The first failing sub-node ends the whole loop with its exception |
| `RedlogAstBuilder.ComponentLoop` | agree/com.rockwellcollins.atc.agree.analysis/src/com/rockwellcollins/atc/agree/analysis/redlog/RedlogAstBuilder.java:71-90 | The sub-node loop yields the component variables and contracts, or the first exception |
| `RedlogAstBuilder.ComponentParts` | agree/com.rockwellcollins.atc.agree.analysis/src/com/rockwellcollins/atc/agree/analysis/redlog/RedlogAstBuilder.java:72-89 | One loop body appends the sub-node's variables and builds its contract |
| `RedlogAstBuilder.GetContractParts` | agree/com.rockwellcollins.atc.agree.analysis/src/com/rockwellcollins/atc/agree/analysis/redlog/RedlogAstBuilder.java:35-94 | The collecting part yields everything handed to the program object, or the first exception |
| `RedlogAstBuilder.ContractProgramFails` | agree/com.rockwellcollins.atc.agree.analysis/src/com/rockwellcollins/atc/agree/analysis/redlog/RedlogAstBuilder.java:35-97 | Building fails exactly when a component expression cannot be prefixed or a variable type is not named |
| `RedlogAstBuilder.GetContractRedlogProgram` | agree/com.rockwellcollins.atc.agree.analysis/src/com/rockwellcollins/atc/agree/analysis/redlog/RedlogAstBuilder.java:35-98 | The program object holds exactly the derived parts, whatever the direction argument; otherwise the builder's exception is returned |
| `RedlogScript.ScanFindsTypes` | agree/com.rockwellcollins.atc.agree.analysis/src/com/rockwellcollins/atc/agree/analysis/redlog/RedlogProgram.java:50-62 | A successful type scan reports exactly whether an `int` and whether a `real` variable occur |
| `RedlogScript.CheckVarTypes` | agree/com.rockwellcollins.atc.agree.analysis/src/com/rockwellcollins/atc/agree/analysis/redlog/RedlogProgram.java:50-62 | The scan loop yields the type scan's flags or its exception |
| `RedlogScript.ScanRejectsOnlyUnnamed` | agree/com.rockwellcollins.atc.agree.analysis/src/com/rockwellcollins/atc/agree/analysis/redlog/RedlogProgram.java:51-53 | A scan over named types never fails, and a failing scan met an unnamed type |
| `RedlogScript.ScanStopsWhenBothSeen` | agree/com.rockwellcollins.atc.agree.analysis/src/com/rockwellcollins/atc/agree/analysis/redlog/RedlogProgram.java:54-60 | Once both flags are set, the rest of the variables is not looked at |
| `RedlogScript.Domain` | agree/com.rockwellcollins.atc.agree.analysis/src/com/rockwellcollins/atc/agree/analysis/redlog/RedlogProgram.java:68-78 | `rlset r$` when a real variable exists, `rlset z$` when only int ones do, and the AGREE exception when neither does |
| `RedlogScript.AttachedFails` | agree/com.rockwellcollins.atc.agree.analysis/src/com/rockwellcollins/atc/agree/analysis/redlog/RedlogProgram.java:172-176 | The boundary search fails, with a class-cast exception, exactly when some connection is not an equation between two identifiers |
| `RedlogScript.AttachedMembers` | agree/com.rockwellcollins.atc.agree.analysis/src/com/rockwellcollins/atc/agree/analysis/redlog/RedlogProgram.java:172-189 | The list holds exactly the far ends of connections from system inputs or into system outputs, each once |
| `RedlogScript.AddIfMatched` | agree/com.rockwellcollins.atc.agree.analysis/src/com/rockwellcollins/atc/agree/analysis/redlog/RedlogProgram.java:178-187 | The inner loop adds the name, once, when some boundary variable has the key |
| `RedlogScript.FindSysInputsOutputsAtComponentLevel` | agree/com.rockwellcollins.atc.agree.analysis/src/com/rockwellcollins/atc/agree/analysis/redlog/RedlogProgram.java:172-189 | The loops build the boundary list of the search, or its exception |
| `RedlogScript.ContractToRedlogString` | agree/com.rockwellcollins.atc.agree.analysis/src/com/rockwellcollins/atc/agree/analysis/redlog/RedlogProgram.java:145-166 | The joined guarantees when the assumptions print as nothing, `(A impl G)` otherwise |
| `RedlogScript.ContractTextBalanced` | agree/com.rockwellcollins.atc.agree.analysis/src/com/rockwellcollins/atc/agree/analysis/redlog/RedlogProgram.java:145-166 | A contract over parenthesis-free names prints balanced |
| `RedlogScript.StrongestJoined` | agree/com.rockwellcollins.atc.agree.analysis/src/com/rockwellcollins/atc/agree/analysis/redlog/RedlogProgram.java:86-105 | The truncated ` and `-appended parts equal their ` and `-join under the `ex(` prefix, with one closing parenthesis per opened one |
| `RedlogScript.StrongestOfNothing` | agree/com.rockwellcollins.atc.agree.analysis/src/com/rockwellcollins/atc/agree/analysis/redlog/RedlogProgram.java:95-103 | With nothing to conjoin and no internal variable, the truncation raises an index exception |
| `RedlogScript.PartsBalanced` | agree/com.rockwellcollins.atc.agree.analysis/src/com/rockwellcollins/atc/agree/analysis/redlog/RedlogProgram.java:97-102 | Every connection and contract text is balanced |
| `RedlogScript.StrongestBalanced` | agree/com.rockwellcollins.atc.agree.analysis/src/com/rockwellcollins/atc/agree/analysis/redlog/RedlogProgram.java:86-105 | The strongest-property formula succeeds and closes every parenthesis it opens |
| `RedlogScript.ResultBalanced` | agree/com.rockwellcollins.atc.agree.analysis/src/com/rockwellcollins/atc/agree/analysis/redlog/RedlogProgram.java:110-130 | The verification formula closes every parenthesis it opens |
| `RedlogScript.QuantifyInternal` | agree/com.rockwellcollins.atc.agree.analysis/src/com/rockwellcollins/atc/agree/analysis/redlog/RedlogProgram.java:88-93 | One `ex(x, ` per variable not attached to the boundary, and their count |
| `RedlogScript.AppendConnections` | agree/com.rockwellcollins.atc.agree.analysis/src/com/rockwellcollins/atc/agree/analysis/redlog/RedlogProgram.java:97-99 | Each connection's text followed by ` and ` |
| `RedlogScript.AppendContracts` | agree/com.rockwellcollins.atc.agree.analysis/src/com/rockwellcollins/atc/agree/analysis/redlog/RedlogProgram.java:100-102 | Each contract's formula followed by ` and ` |
| `RedlogScript.BuildStrongest` | agree/com.rockwellcollins.atc.agree.analysis/src/com/rockwellcollins/atc/agree/analysis/redlog/RedlogProgram.java:86-105 | The strongest property as the loops build it, failing truncation included |
| `RedlogScript.BuildResultFormula` | agree/com.rockwellcollins.atc.agree.analysis/src/com/rockwellcollins/atc/agree/analysis/redlog/RedlogProgram.java:110-130 | The `all(`-quantified implication from the strongest property to the system contract |
| `RedlogScript.ScriptEscaped` | agree/com.rockwellcollins.atc.agree.analysis/src/com/rockwellcollins/atc/agree/analysis/redlog/RedlogProgram.java:142 | In the final script every `_` is preceded by `!`, and deleting every `!` gives back the unescaped text |
| `RedlogScript.ScriptLayout` | agree/com.rockwellcollins.atc.agree.analysis/src/com/rockwellcollins/atc/agree/analysis/redlog/RedlogProgram.java:64-143 | The script opens with the echo settings and the domain line and ends with the two sentinel bands around `rlqe` and `rlqea`, then `SHOWTIME;` |
| `RedlogScript.TrailerEscaped` | agree/com.rockwellcollins.atc.agree.analysis/src/com/rockwellcollins/atc/agree/analysis/redlog/RedlogProgram.java:132-139 | Escaping the trailer touches only the two commands; the sentinel lines hold no underscore |
| `RedlogScript.RedlogProgram.constructor` | agree/com.rockwellcollins.atc.agree.analysis/src/com/rockwellcollins/atc/agree/analysis/redlog/RedlogProgram.java:35-48 | Null lists become empty; a null contract map, an unnamed type or a malformed connection is the constructor's exception; otherwise the type flags and the boundary list are set |
| `RedlogScript.RedlogProgram.ToString` | agree/com.rockwellcollins.atc.agree.analysis/src/com/rockwellcollins/atc/agree/analysis/redlog/RedlogProgram.java:64-143 | After the domain check and the strongest-property truncation, an empty contract map fails with `NoSuchElement`; otherwise the result is the escaped script for some value of the map |
| `RedlogApi.RedlogApi.constructor` | agree/com.rockwellcollins.atc.agree.analysis/src/com/rockwellcollins/atc/agree/analysis/redlog/RedlogApi.java:24 | No timeout is set |
| `RedlogApi.RedlogApi.SetTimeout` | agree/com.rockwellcollins.atc.agree.analysis/src/com/rockwellcollins/atc/agree/analysis/redlog/RedlogApi.java:32-37 | A timeout of at most 0 is refused with a Redlog exception and leaves the old one; otherwise it is stored |
| `RedlogApi.ReadRedlogOutput` | agree/com.rockwellcollins.atc.agree.analysis/src/com/rockwellcollins/atc/agree/analysis/redlog/RedlogApi.java:159-211 | The line loop yields the band reading: the pair, null, or a read that never ends |
| `RedlogApi.ReadBand` | agree/com.rockwellcollins.atc.agree.analysis/src/com/rockwellcollins/atc/agree/analysis/redlog/RedlogApi.java:179-196 | The inner loop reads a band up to its end sentinel without leaving the band reading |
| `RedlogApi.StoppedFinal` | agree/com.rockwellcollins.atc.agree.analysis/src/com/rockwellcollins/atc/agree/analysis/redlog/RedlogApi.java:177-178 | Past the end marker no line is read |
| `RedlogApi.StoppedRest` | agree/com.rockwellcollins.atc.agree.analysis/src/com/rockwellcollins/atc/agree/analysis/redlog/RedlogApi.java:177-178 | Once the end marker is met, the reading of the whole output is the reading up to it |
| `RedlogApi.StopRead` | agree/com.rockwellcollins.atc.agree.analysis/src/com/rockwellcollins/atc/agree/analysis/redlog/RedlogApi.java:177-178 | A line with `End-of-file` or `Quitting` outside the bands stops the reading, whatever follows |
| `RedlogApi.NoiseIgnored` | agree/com.rockwellcollins.atc.agree.analysis/src/com/rockwellcollins/atc/agree/analysis/redlog/RedlogApi.java:200-202 | Lines outside the bands that are neither sentinels, time lines nor end markers change nothing |
| `RedlogApi.BandLines` | agree/com.rockwellcollins.atc.agree.analysis/src/com/rockwellcollins/atc/agree/analysis/redlog/RedlogApi.java:182-196 | Inside a band, each line before the end sentinel joins the band's text exactly when it has no colon |
| `RedlogApi.StrongestBandRead` | agree/com.rockwellcollins.atc.agree.analysis/src/com/rockwellcollins/atc/agree/analysis/redlog/RedlogApi.java:179-187 | The strongest-property band adds exactly its colon-free lines to the strongest property |
| `RedlogApi.ResultBandRead` | agree/com.rockwellcollins.atc.agree.analysis/src/com/rockwellcollins/atc/agree/analysis/redlog/RedlogApi.java:188-196 | The result band adds exactly its colon-free lines to the result text |
| `RedlogApi.TimeLineRead` | agree/com.rockwellcollins.atc.agree.analysis/src/com/rockwellcollins/atc/agree/analysis/redlog/RedlogApi.java:197-199 | A time line outside the bands joins the result text |
| `RedlogApi.ScriptOutputRead` | agree/com.rockwellcollins.atc.agree.analysis/src/com/rockwellcollins/atc/agree/analysis/redlog/RedlogApi.java:159-211 | For output laid out as the script prints it, the pair is the cleaned strongest band and the cleaned result band followed by the time line |
| `RedlogApi.CleanStrongestMeaning` | agree/com.rockwellcollins.atc.agree.analysis/src/com/rockwellcollins/atc/agree/analysis/redlog/RedlogApi.java:204 | The cleaned strongest property has no `!` or `$`, a line break for every `$`, and otherwise the raw characters less `!`, CR, LF and `$` |
| `RedlogApi.CleanResultMeaning` | agree/com.rockwellcollins.atc.agree.analysis/src/com/rockwellcollins/atc/agree/analysis/redlog/RedlogApi.java:205 | The cleaned result also has a line break after every comma |
| `RedlogApi.SignalIndex` | agree/com.rockwellcollins.atc.agree.analysis/src/com/rockwellcollins/atc/agree/analysis/redlog/RedlogApi.java:238 | The signal found has the name, and none has it when none is found |
| `RedlogApi.ExtractLines` | agree/com.rockwellcollins.atc.agree.analysis/src/com/rockwellcollins/atc/agree/analysis/redlog/RedlogApi.java:234-242 | A failure is raised by a line from the text that holds `=` without both sides |
| `RedlogApi.PutTabulates` | agree/com.rockwellcollins.atc.agree.analysis/src/com/rockwellcollins/atc/agree/analysis/redlog/RedlogApi.java:238-240 | Putting a value keeps the signals an exact table of the last value per name |
| `RedlogApi.ExtractAssigned` | agree/com.rockwellcollins.atc.agree.analysis/src/com/rockwellcollins/atc/agree/analysis/redlog/RedlogApi.java:231-244 | Extraction fails exactly where the independent reading fails; otherwise one signal per name, holding at step 0 the value of the last line naming it |
| `RedlogApi.ExtractedReadBack` | agree/com.rockwellcollins.atc.agree.analysis/src/com/rockwellcollins/atc/agree/analysis/redlog/RedlogApi.java:231-244 | An extracted counterexample is read back by the parse thread unchanged |
| `RedlogApi.ExtractCounterexample` | agree/com.rockwellcollins.atc.agree.analysis/src/com/rockwellcollins/atc/agree/analysis/redlog/RedlogApi.java:231-244 | The loop yields the one-step counterexample of the result text, or its exception |
| `RedlogApi.PropertyLines` | agree/com.rockwellcollins.atc.agree.analysis/src/com/rockwellcollins/atc/agree/analysis/redlog/RedlogApi.java:213-229 | The block is written only for a named first property and a readable runtime; the failures are exactly those |
| `RedlogApi.WriteVerdict` | agree/com.rockwellcollins.atc.agree.analysis/src/com/rockwellcollins/atc/agree/analysis/redlog/RedlogApi.java:220-227 | The writer gains exactly the block of the verdict the result text selects |
| `RedlogApi.WriteProperty` | agree/com.rockwellcollins.atc.agree.analysis/src/com/rockwellcollins/atc/agree/analysis/redlog/RedlogApi.java:213-228 | The writer gains exactly the first property's block |
| `RedlogApi.WriteXmlFile` | agree/com.rockwellcollins.atc.agree.analysis/src/com/rockwellcollins/atc/agree/analysis/redlog/RedlogApi.java:213-229 | The file is the declaration and root lines, the first property's block and the closing line |
| `RedlogApi.Finish` | agree/com.rockwellcollins.atc.agree.analysis/src/com/rockwellcollins/atc/agree/analysis/redlog/RedlogApi.java:126-155 | After the `finally` block the result is cancelled exactly when the monitor is, and completed otherwise; the call returns exactly when the exit code is 0 or the run is cancelled and nothing failed |
| `RedlogApi.FinishCall` | agree/com.rockwellcollins.atc.agree.analysis/src/com/rockwellcollins/atc/agree/analysis/redlog/RedlogApi.java:126-151 | The method leaves the result and outcome of the finishing step |
| `RedlogApi.ReadAndWrite` | agree/com.rockwellcollins.atc.agree.analysis/src/com/rockwellcollins/atc/agree/analysis/redlog/RedlogApi.java:118-155 | Reading, writing, parsing and finishing leave the result and outcome of the call |
| `RedlogApi.CallRedlog` | agree/com.rockwellcollins.atc.agree.analysis/src/com/rockwellcollins/atc/agree/analysis/redlog/RedlogApi.java:110-157 | The call leaves the result and outcome of the modelled run |
| `RedlogApi.Execute` | agree/com.rockwellcollins.atc.agree.analysis/src/com/rockwellcollins/atc/agree/analysis/redlog/RedlogApi.java:91-108 | Execution leaves the result and outcome of the modelled run, exceptions mapped |
| `RedlogApi.ExceptionsWrapped` | agree/com.rockwellcollins.atc.agree.analysis/src/com/rockwellcollins/atc/agree/analysis/redlog/RedlogApi.java:95-104 | Only a stale XML file raises a bare Redlog exception; every other throwable is wrapped with the final result text |
| `RedlogApi.FinalProgress` | agree/com.rockwellcollins.atc.agree.analysis/src/com/rockwellcollins/atc/agree/analysis/redlog/RedlogApi.java:140-144 | A run that returns or throws ends cancelled exactly when the monitor is cancelled and completed otherwise; only an endless read stays working |
| `RedlogApi.AbnormalExit` | agree/com.rockwellcollins.atc.agree.analysis/src/com/rockwellcollins/atc/agree/analysis/redlog/RedlogApi.java:147-150 | A nonzero exit code raises the abnormal-termination error exactly when the run is not cancelled |
| `RedlogApi.CanceledBeforeOutput` | agree/com.rockwellcollins.atc.agree.analysis/src/com/rockwellcollins/atc/agree/analysis/redlog/RedlogApi.java:166-167 | Cancelling before output is ready cancels the result, records nothing and reports the missing output |
| `RedlogApi.ValidRoundTrip` | agree/com.rockwellcollins.atc.agree.analysis/src/com/rockwellcollins/atc/agree/analysis/redlog/RedlogApi.java:213-229 | A result text starting with `true` is written as valid and read back as the first property valid, with the strongest property and text stored, when the property name and runtime are plain XML text |
| `RedlogApi.InvalidRoundTrip` | agree/com.rockwellcollins.atc.agree.analysis/src/com/rockwellcollins/atc/agree/analysis/redlog/RedlogApi.java:213-229 | A falsified result text's counterexample, always of length 1, is written and read back unchanged for the first property, when the property name, runtime, signal names and values are plain XML text |
| `RedlogApi.UnknownFileFails` | agree/com.rockwellcollins.atc.agree.analysis/src/com/rockwellcollins/atc/agree/analysis/redlog/RedlogApi.java:222-223 | The file written for an unknown verdict stops the parse thread with an unknown-answer failure and records nothing |
| `RedlogApi.UnknownNeverReturns` | agree/com.rockwellcollins.atc.agree.analysis/src/com/rockwellcollins/atc/agree/analysis/redlog/RedlogApi.java:153-155 | An unknown verdict never lets `execute` return; without an abnormal exit it raises the XML parse error, when the property name and runtime are plain XML text |
| `RedlogApi.ExecuteProgram` | agree/com.rockwellcollins.atc.agree.analysis/src/com/rockwellcollins/atc/agree/analysis/redlog/RedlogApi.java:50-52 | Executing a program runs the script `toString` yields for some pick of its system contract; the script's own exception escapes |
| `RedlogApi.ExecuteScript` | agree/com.rockwellcollins.atc.agree.analysis/src/com/rockwellcollins/atc/agree/analysis/redlog/RedlogApi.java:50-73 | A failing script leaves the result as it was and raises its exception; a script runs as executed |
| `XmlWriter.XmlWriter.constructor` | agree/com.rockwellcollins.atc.agree.analysis/src/com/rockwellcollins/atc/agree/analysis/redlog/XmlWriter.java:15-21 | Nothing is written yet |
| `XmlWriter.XmlWriter.Begin` | agree/com.rockwellcollins.atc.agree.analysis/src/com/rockwellcollins/atc/agree/analysis/redlog/XmlWriter.java:24-27 | Appends the XML declaration and the opening `RedlogResults` line |
| `XmlWriter.XmlWriter.End` | agree/com.rockwellcollins.atc.agree.analysis/src/com/rockwellcollins/atc/agree/analysis/redlog/XmlWriter.java:30-33 | Appends the closing root line |
| `XmlWriter.XmlWriter.WriteValid` | agree/com.rockwellcollins.atc.agree.analysis/src/com/rockwellcollins/atc/agree/analysis/redlog/XmlWriter.java:36-42 | Appends one property block with the runtime and the `valid` answer |
| `XmlWriter.XmlWriter.WriteInvalid` | agree/com.rockwellcollins.atc.agree.analysis/src/com/rockwellcollins/atc/agree/analysis/redlog/XmlWriter.java:46-53 | Appends one property block with the `falsifiable` answer and the counterexample block |
| `XmlWriter.XmlWriter.WriteUnknown` | agree/com.rockwellcollins.atc.agree.analysis/src/com/rockwellcollins/atc/agree/analysis/redlog/XmlWriter.java:56-62 | Appends one property block with the `unknown` answer |
| `XmlWriter.XmlWriter.WriteCounterexample` | agree/com.rockwellcollins.atc.agree.analysis/src/com/rockwellcollins/atc/agree/analysis/redlog/XmlWriter.java:64-70 | Appends the counterexample frame around one block per signal |
| `XmlWriter.XmlWriter.WriteSignal` | agree/com.rockwellcollins.atc.agree.analysis/src/com/rockwellcollins/atc/agree/analysis/redlog/XmlWriter.java:72-84 | Appends the signal's block with its value lines |
| `XmlWriter.RootNotClosed` | agree/com.rockwellcollins.atc.agree.analysis/src/com/rockwellcollins/atc/agree/analysis/redlog/XmlWriter.java:24-33 | The root element opened by `begin` is not the one `end` closes, contrary to the element-type match of section 3 of XML 1.0 |
| `XmlWriter.ValueLinesWritten` | agree/com.rockwellcollins.atc.agree.analysis/src/com/rockwellcollins/atc/agree/analysis/redlog/XmlWriter.java:77-82 | A step is written exactly when it is below the length and has a value, in increasing order, each with its value |
| `XmlWriter.OnlyInvalidHasCounterexample` | agree/com.rockwellcollins.atc.agree.analysis/src/com/rockwellcollins/atc/agree/analysis/redlog/XmlWriter.java:35-62 | Only the falsifiable block has a counterexample |
| `XmlParseThread.XmlParseThread.constructor` | agree/com.rockwellcollins.atc.agree.analysis/src/com/rockwellcollins/atc/agree/analysis/redlog/XmlParseThread.java:34-39 | The thread holds the result and no throwable |
| `XmlParseThread.XmlParseThread.Run` | agree/com.rockwellcollins.atc.agree.analysis/src/com/rockwellcollins/atc/agree/analysis/redlog/XmlParseThread.java:42-65 | The result gains the properties of the line-grouping reading, and the first failure is kept in `throwable` |
| `XmlParseThread.FailureFinal` | agree/com.rockwellcollins.atc.agree.analysis/src/com/rockwellcollins/atc/agree/analysis/redlog/XmlParseThread.java:62-64 | Once the loop has failed, no later line changes anything |
| `XmlParseThread.XmlParseThread.FinishFailed` | agree/com.rockwellcollins.atc.agree.analysis/src/com/rockwellcollins/atc/agree/analysis/redlog/XmlParseThread.java:62-64 | The reading of all lines is the reading up to the failure |
| `XmlParseThread.RunLinesAppend` | agree/com.rockwellcollins.atc.agree.analysis/src/com/rockwellcollins/atc/agree/analysis/redlog/XmlParseThread.java:46-61 | Reading two stretches of lines is reading the first, then the second |
| `XmlParseThread.IdleLines` | agree/com.rockwellcollins.atc.agree.analysis/src/com/rockwellcollins/atc/agree/analysis/redlog/XmlParseThread.java:58-60 | Lines that neither open nor close a block are ignored outside one |
| `XmlParseThread.BufferedLines` | agree/com.rockwellcollins.atc.agree.analysis/src/com/rockwellcollins/atc/agree/analysis/redlog/XmlParseThread.java:58-60 | Such lines are appended to an open block |
| `XmlParseThread.BlockRun` | agree/com.rockwellcollins.atc.agree.analysis/src/com/rockwellcollins/atc/agree/analysis/redlog/XmlParseThread.java:48-57 | A block from an opening line to a closing line is parsed as one whole, its property recorded or its failure kept |
| `XmlParseThread.WrittenBlockRun` | agree/com.rockwellcollins.atc.agree.analysis/src/com/rockwellcollins/atc/agree/analysis/redlog/XmlParseThread.java:48-57 | The same for a block the writer opens and closes |
| `XmlParseThread.OpensBlock` | agree/com.rockwellcollins.atc.agree.analysis/src/com/rockwellcollins/atc/agree/analysis/redlog/XmlParseThread.java:48 | The writer's opening line starts a block |
| `XmlParseThread.ClosesBlock` | agree/com.rockwellcollins.atc.agree.analysis/src/com/rockwellcollins/atc/agree/analysis/redlog/XmlParseThread.java:49 | The writer's closing line ends a block and does not open one |
| `XmlParseThread.XmlParseThread.ParsePropertyXml` | agree/com.rockwellcollins.atc.agree.analysis/src/com/rockwellcollins/atc/agree/analysis/redlog/XmlParseThread.java:79-90 | A block's property is recorded in an existing result, or in one newly added unless the renaming drops it; a failure leaves the result unchanged |
| `XmlParseThread.PropertyOf` | agree/com.rockwellcollins.atc.agree.analysis/src/com/rockwellcollins/atc/agree/analysis/redlog/XmlParseThread.java:92-111 | The answer must be present; lower-cased `valid` gives a valid property and `falsifiable` an invalid one carrying the counterexample |
| `XmlParseThread.XmlParseThread.GetProperty` | agree/com.rockwellcollins.atc.agree.analysis/src/com/rockwellcollins/atc/agree/analysis/redlog/XmlParseThread.java:92-111 | The method yields the property of the element |
| `XmlParseThread.AnswersLowered` | agree/com.rockwellcollins.atc.agree.analysis/src/com/rockwellcollins/atc/agree/analysis/redlog/XmlParseThread.java:98-109 | `valid` and `falsifiable` are their own lower case, and `unknown` is neither |
| `XmlParseThread.UnknownBlockRead` | agree/com.rockwellcollins.atc.agree.analysis/src/com/rockwellcollins/atc/agree/analysis/redlog/XmlParseThread.java:104-109 | The writer's unknown block is refused with an unknown-answer failure |
| `XmlParseThread.UnknownBlockRun` | agree/com.rockwellcollins.atc.agree.analysis/src/com/rockwellcollins/atc/agree/analysis/redlog/XmlParseThread.java:104-109 | Met in the loop, it stops the loop and records nothing |
| `XmlParseThread.XmlParseThread.GetCounterexample` | agree/com.rockwellcollins.atc.agree.analysis/src/com/rockwellcollins/atc/agree/analysis/redlog/XmlParseThread.java:125-135 | The method yields the counterexample reading: null without the element, otherwise its signals |
| `XmlParseThread.SignalsOfEach` | agree/com.rockwellcollins.atc.agree.analysis/src/com/rockwellcollins/atc/agree/analysis/redlog/XmlParseThread.java:131-133 | Each signal read is the reading of its element, and a failure is one signal's failure |
| `XmlParseThread.SignalsFailFinal` | agree/com.rockwellcollins.atc.agree.analysis/src/com/rockwellcollins/atc/agree/analysis/redlog/XmlParseThread.java:131-133 | The first bad signal decides the failure |
| `XmlParseThread.XmlParseThread.GetSignal` | agree/com.rockwellcollins.atc.agree.analysis/src/com/rockwellcollins/atc/agree/analysis/redlog/XmlParseThread.java:137-151 | The method yields the signal reading of the element |
| `XmlParseThread.ValuesOfEach` | agree/com.rockwellcollins.atc.agree.analysis/src/com/rockwellcollins/atc/agree/analysis/redlog/XmlParseThread.java:146-149 | A signal's values parse exactly when every time is an int, each time is a step, and a failure names a bad time |
| `XmlParseThread.ValuesFailFinal` | agree/com.rockwellcollins.atc.agree.analysis/src/com/rockwellcollins/atc/agree/analysis/redlog/XmlParseThread.java:146-149 | The first bad value decides the failure |
| `XmlParseThread.ParseValues` | agree/com.rockwellcollins.atc.agree.analysis/src/com/rockwellcollins/atc/agree/analysis/redlog/XmlParseThread.java:146 | A successful reading of value lines consumes at least one line, the closing one |
| `XmlParseThread.ParseSignals` | agree/com.rockwellcollins.atc.agree.analysis/src/com/rockwellcollins/atc/agree/analysis/redlog/XmlParseThread.java:131 | A successful reading of signal blocks consumes at least one line, the closing one |
| `XmlParseThread.ReadSignalLines` | agree/com.rockwellcollins.atc.agree.analysis/src/com/rockwellcollins/atc/agree/analysis/redlog/XmlParseThread.java:131 | The signal blocks the writer writes are read back in order, as written |
| `XmlParseThread.ValidBlockRead` | agree/com.rockwellcollins.atc.agree.analysis/src/com/rockwellcollins/atc/agree/analysis/redlog/XmlParseThread.java:98-100 | The writer's valid block reads back as a valid property |
| `XmlParseThread.InvalidBlockRead` | agree/com.rockwellcollins.atc.agree.analysis/src/com/rockwellcollins/atc/agree/analysis/redlog/XmlParseThread.java:102-103 | The writer's falsifiable block reads back with its signals in order, each with the written steps; the counterexample read back always has length 1 |
| `XmlParseThread.WrittenValuesRead` | agree/com.rockwellcollins.atc.agree.analysis/src/com/rockwellcollins/atc/agree/analysis/redlog/XmlParseThread.java:146-149 | The written value lines read back as the signal's values below the length |
| `XmlParseThread.WrittenSignalsRead` | agree/com.rockwellcollins.atc.agree.analysis/src/com/rockwellcollins/atc/agree/analysis/redlog/XmlParseThread.java:131-133 | The written signals read back, each restricted to the written steps |
| `XmlParseThread.ValidBlockRun` | agree/com.rockwellcollins.atc.agree.analysis/src/com/rockwellcollins/atc/agree/analysis/redlog/XmlParseThread.java:42-65 | Met in the loop, a valid block records its property |
| `XmlParseThread.InvalidBlockRun` | agree/com.rockwellcollins.atc.agree.analysis/src/com/rockwellcollins/atc/agree/analysis/redlog/XmlParseThread.java:42-65 | Met in the loop, a falsifiable block records its property |
| `XmlParseThread.VerdictsRun` | agree/com.rockwellcollins.atc.agree.analysis/src/com/rockwellcollins/atc/agree/analysis/redlog/XmlParseThread.java:42-65 | A sequence of written valid and falsified blocks records each property, in order |
| `XmlParseThread.WrittenFileRead` | agree/com.rockwellcollins.atc.agree.analysis/src/com/rockwellcollins/atc/agree/analysis/redlog/XmlParseThread.java:42-65 | The file the writer writes for valid and falsified verdicts reads back verdict by verdict, with no failure and no block left open |
| `XmlParseThread.Kept` | agree/com.rockwellcollins.atc.agree.analysis/src/com/rockwellcollins/atc/agree/analysis/redlog/RedlogResult.java:12-14 | The names kept are exactly those the renaming does not drop |
| `XmlParseThread.RedlogResult.constructor` | agree/com.rockwellcollins.atc.agree.analysis/src/com/rockwellcollins/atc/agree/analysis/redlog/RedlogResult.java:12-14 | A new result has the kept property names, nothing recorded and no text, and is waiting |
| `XmlParseThread.RedlogResult.SetSystemStrongestProperty` | agree/com.rockwellcollins.atc.agree.analysis/src/com/rockwellcollins/atc/agree/analysis/redlog/RedlogResult.java:16-18 | The strongest property is stored |
| `XmlParseThread.RedlogResult.AddProperty` | agree/com.rockwellcollins.atc.agree.analysis/src/com/rockwellcollins/atc/agree/analysis/redlog/XmlParseThread.java:84-87 | A result is added for the name exactly when the renaming keeps it |
| `XmlParseThread.RedlogResult.SetProperty` | agree/com.rockwellcollins.atc.agree.analysis/src/com/rockwellcollins/atc/agree/analysis/redlog/XmlParseThread.java:89 | The property is recorded under the name |
| `ResultsLinker.AgreeResultsLinker.constructor` | agree/com.rockwellcollins.atc.agree.analysis/src/com/rockwellcollins/atc/agree/analysis/views/AgreeResultsLinker.java:17-23 | All seven maps start empty |
| `ResultsLinker.AgreeResultsLinker.SetProgram` | agree/com.rockwellcollins.atc.agree.analysis/src/com/rockwellcollins/atc/agree/analysis/views/AgreeResultsLinker.java:25-27 | Only the program map changes, at the result; the program reads back |
| `ResultsLinker.AgreeResultsLinker.GetProgram` | agree/com.rockwellcollins.atc.agree.analysis/src/com/rockwellcollins/atc/agree/analysis/views/AgreeResultsLinker.java:29-31 | The stored program, or null when none was set |
| `ResultsLinker.AgreeResultsLinker.SetRedlogProgram` | agree/com.rockwellcollins.atc.agree.analysis/src/com/rockwellcollins/atc/agree/analysis/views/AgreeResultsLinker.java:33-35 | Only the Redlog program map changes, at the result; the program reads back |
| `ResultsLinker.AgreeResultsLinker.GetRedlogProgram` | agree/com.rockwellcollins.atc.agree.analysis/src/com/rockwellcollins/atc/agree/analysis/views/AgreeResultsLinker.java:37-39 | The stored Redlog program, or null |
| `ResultsLinker.AgreeResultsLinker.SetComponent` | agree/com.rockwellcollins.atc.agree.analysis/src/com/rockwellcollins/atc/agree/analysis/views/AgreeResultsLinker.java:41-43 | Only the component map changes, at the result; the component reads back |
| `ResultsLinker.AgreeResultsLinker.GetComponent` | agree/com.rockwellcollins.atc.agree.analysis/src/com/rockwellcollins/atc/agree/analysis/views/AgreeResultsLinker.java:45-47 | The stored component, or null when none or null was stored |
| `ResultsLinker.AgreeResultsLinker.SetContract` | agree/com.rockwellcollins.atc.agree.analysis/src/com/rockwellcollins/atc/agree/analysis/views/AgreeResultsLinker.java:49-51 | Only the contract map changes, at the result; the contract reads back |
| `ResultsLinker.AgreeResultsLinker.GetContract` | agree/com.rockwellcollins.atc.agree.analysis/src/com/rockwellcollins/atc/agree/analysis/views/AgreeResultsLinker.java:53-55 | The stored contract, or null when none or null was stored |
| `ResultsLinker.AgreeResultsLinker.SetLayout` | agree/com.rockwellcollins.atc.agree.analysis/src/com/rockwellcollins/atc/agree/analysis/views/AgreeResultsLinker.java:57-59 | Only the layout map changes, at the result; the layout reads back |
| `ResultsLinker.AgreeResultsLinker.GetLayout` | agree/com.rockwellcollins.atc.agree.analysis/src/com/rockwellcollins/atc/agree/analysis/views/AgreeResultsLinker.java:61-63 | The stored layout, or null |
| `ResultsLinker.AgreeResultsLinker.SetReferenceMap` | agree/com.rockwellcollins.atc.agree.analysis/src/com/rockwellcollins/atc/agree/analysis/views/AgreeResultsLinker.java:65-67 | Only the reference-map map changes, at the result; the map reads back |
| `ResultsLinker.AgreeResultsLinker.GetReferenceMap` | agree/com.rockwellcollins.atc.agree.analysis/src/com/rockwellcollins/atc/agree/analysis/views/AgreeResultsLinker.java:69-71 | The stored reference map, or null |
| `ResultsLinker.AgreeResultsLinker.SetLog` | agree/com.rockwellcollins.atc.agree.analysis/src/com/rockwellcollins/atc/agree/analysis/views/AgreeResultsLinker.java:73-75 | Only the log map changes, at the result; the log reads back |
| `ResultsLinker.AgreeResultsLinker.GetLog` | agree/com.rockwellcollins.atc.agree.analysis/src/com/rockwellcollins/atc/agree/analysis/views/AgreeResultsLinker.java:77-79 | The stored log, or null |
| `ResultsLinker.NothingLinked` | agree/com.rockwellcollins.atc.agree.analysis/src/com/rockwellcollins/atc/agree/analysis/views/AgreeResultsLinker.java:29-79 | A fresh linker answers null for every kind and every result |
| `VerifyHandler.GetNestedMessages` | agree/com.rockwellcollins.atc.agree.analysis/src/com/rockwellcollins/atc/agree/analysis/handlers/VerifyHandler.java:186-197 | The loop over the cause chain yields the nested messages |
| `VerifyHandler.NestedMessagesLines` | agree/com.rockwellcollins.atc.agree.analysis/src/com/rockwellcollins/atc/agree/analysis/handlers/VerifyHandler.java:186-197 | One line per present message, outermost first |
| `VerifyHandler.PresentMessages` | agree/com.rockwellcollins.atc.agree.analysis/src/com/rockwellcollins/atc/agree/analysis/handlers/VerifyHandler.java:190-192 | Exactly the non-null, non-empty messages of the chain are present |
| `VerifyHandler.NestedMessagesWrap` | agree/com.rockwellcollins.atc.agree.analysis/src/com/rockwellcollins/atc/agree/analysis/handlers/VerifyHandler.java:189-194 | Wrapping a throwable around a chain puts its line first |
| `VerifyHandler.Bookkeeping.AddKind2Properties` | agree/com.rockwellcollins.atc.agree.analysis/src/com/rockwellcollins/atc/agree/analysis/handlers/VerifyHandler.java:315-332 | The properties and renames gain exactly the node's Kind 2 entries, sub-nodes in pre-order |
| `VerifyHandler.Bookkeeping.AddStatements` | agree/com.rockwellcollins.atc.agree.analysis/src/com/rockwellcollins/atc/agree/analysis/handlers/VerifyHandler.java:316-326 | The two numbering loops add the lemmas' then the guarantees' entries, numbered on from 1 |
| `VerifyHandler.Bookkeeping.AddNumbered` | agree/com.rockwellcollins.atc.agree.analysis/src/com/rockwellcollins/atc/agree/analysis/handlers/VerifyHandler.java:320-321 | One statement adds its numbered property and its rename, and the counter goes up by one |
| `VerifyHandler.Bookkeeping.AddSubNodes` | agree/com.rockwellcollins.atc.agree.analysis/src/com/rockwellcollins/atc/agree/analysis/handlers/VerifyHandler.java:328-331 | The sub-node loop adds each sub-node's entries with extended prefixes |
| `VerifyHandler.Kind2Numbering` | agree/com.rockwellcollins.atc.agree.analysis/src/com/rockwellcollins/atc/agree/analysis/handlers/VerifyHandler.java:316-326 | Within a node lemma k is numbered k+1 and guarantee j is numbered L+j+1, before any sub-node entry |
| `VerifyHandler.OwnEntriesDistinct` | agree/com.rockwellcollins.atc.agree.analysis/src/com/rockwellcollins/atc/agree/analysis/handlers/VerifyHandler.java:316-326 | One node's properties and rename sources are pairwise distinct |
| `VerifyHandler.Kind2UnderPrefix` | agree/com.rockwellcollins.atc.agree.analysis/src/com/rockwellcollins/atc/agree/analysis/handlers/VerifyHandler.java:315-332 | Every entry is named under the node's prefix, in both spellings |
| `VerifyHandler.SubNodesUnderPrefix` | agree/com.rockwellcollins.atc.agree.analysis/src/com/rockwellcollins/atc/agree/analysis/handlers/VerifyHandler.java:328-331 | Every sub-node entry is named under `prefix.` and its dot-substituted form |
| `VerifyHandler.StatementEntriesEach` | agree/com.rockwellcollins.atc.agree.analysis/src/com/rockwellcollins/atc/agree/analysis/handlers/VerifyHandler.java:319-326 | Statement k gets the entry numbered k+1 |
| `VerifyHandler.ReferenceStrCases` | agree/com.rockwellcollins.atc.agree.analysis/src/com/rockwellcollins/atc/agree/analysis/handlers/VerifyHandler.java:356-390 | Null exactly without a category or for a clock variable; an AGREE exception exactly for an assert statement or an unhandled element; a named element qualified by its component's location |
| `VerifyHandler.Bookkeeping.AddReference` | agree/com.rockwellcollins.atc.agree.analysis/src/com/rockwellcollins/atc/agree/analysis/handlers/VerifyHandler.java:334-347 | The reference map, renames and layout gain the variable's entries, or its exception is returned |
| `VerifyHandler.AddElementValid` | agree/com.rockwellcollins.atc.agree.analysis/src/com/rockwellcollins/atc/agree/analysis/handlers/VerifyHandler.java:342-346 | Adding an element keeps the layout's categories distinct and known |
| `VerifyHandler.Bookkeeping.AddReferences` | agree/com.rockwellcollins.atc.agree.analysis/src/com/rockwellcollins/atc/agree/analysis/handlers/VerifyHandler.java:288-304 | The variable loop yields the referencing of all AGREE variables, stopping at the first exception |
| `VerifyHandler.AllReferencedFails` | agree/com.rockwellcollins.atc.agree.analysis/src/com/rockwellcollins/atc/agree/analysis/handlers/VerifyHandler.java:288-304 | Referencing fails exactly when some AGREE variable has no reference string, with an AGREE exception |
| `VerifyHandler.AllReferencedRecords` | agree/com.rockwellcollins.atc.agree.analysis/src/com/rockwellcollins/atc/agree/analysis/handlers/VerifyHandler.java:288-304 | No key or rename is lost, the layout stays valid, and on success every AGREE variable's id is a key |
| `VerifyHandler.AllReferencedFailFinal` | agree/com.rockwellcollins.atc.agree.analysis/src/com/rockwellcollins/atc/agree/analysis/handlers/VerifyHandler.java:288-304 | The first failure decides the outcome |
| `VerifyHandler.AllReferencedAppend` | agree/com.rockwellcollins.atc.agree.analysis/src/com/rockwellcollins/atc/agree/analysis/handlers/VerifyHandler.java:288-304 | Referencing two lists references the first, then the second unless the first failed |
| `VerifyHandler.Bookkeeping.AddRenamings` | agree/com.rockwellcollins.atc.agree.analysis/src/com/rockwellcollins/atc/agree/analysis/handlers/VerifyHandler.java:286-313 | The references of the main node's inputs, locals and outputs, then the Kind 2 properties when Kind 2 is used; an exception leaves the properties unchanged |
| `VerifyHandler.Bookkeeping.constructor` | agree/com.rockwellcollins.atc.agree.analysis/src/com/rockwellcollins/atc/agree/analysis/handlers/VerifyHandler.java:239-241 | Fresh, empty bookkeeping |
| `VerifyHandler.MainNodeFirst` | agree/com.rockwellcollins.atc.agree.analysis/src/com/rockwellcollins/atc/agree/analysis/handlers/VerifyHandler.java:242-251 | A main node is found exactly when some node has the main id, and it is the first such node |
| `VerifyHandler.FindMainNode` | agree/com.rockwellcollins.atc.agree.analysis/src/com/rockwellcollins/atc/agree/analysis/handlers/VerifyHandler.java:242-251 | The search loop yields that node |
| `VerifyHandler.FirstAgreeSubclauseFirst` | agree/com.rockwellcollins.atc.agree.analysis/src/com/rockwellcollins/atc/agree/analysis/handlers/VerifyHandler.java:392-400 | A contract is found exactly when an AGREE annex is owned, and it is the first |
| `VerifyHandler.GetContract` | agree/com.rockwellcollins.atc.agree.analysis/src/com/rockwellcollins/atc/agree/analysis/handlers/VerifyHandler.java:392-400 | The loop yields that contract |
| `VerifyHandler.JKindResult.constructor` | agree/com.rockwellcollins.atc.agree.analysis/src/com/rockwellcollins/atc/agree/analysis/handlers/VerifyHandler.java:256-270 | The result holds its name, analysis, properties and renames |
| `VerifyHandler.VerifyHandler.CreateVerification` | agree/com.rockwellcollins.atc.agree.analysis/src/com/rockwellcollins/atc/agree/analysis/handlers/VerifyHandler.java:236-284 | No main node is an AGREE exception that changes nothing; otherwise exactly one result is queued and registered in the linker |
| `VerifyHandler.VerifyHandler.Register` | agree/com.rockwellcollins.atc.agree.analysis/src/com/rockwellcollins/atc/agree/analysis/handlers/VerifyHandler.java:273-279 | The linker gains the program, component, contract, layout, reference map and log for the result |
| `VerifyHandler.VerifyHandler.constructor` | agree/com.rockwellcollins.atc.agree.analysis/src/com/rockwellcollins/atc/agree/analysis/handlers/VerifyHandler.java:80-81 | Empty queue, no execution and no cancellation yet |
| `VerifyHandler.DrainedSuffix` | agree/com.rockwellcollins.atc.agree.analysis/src/com/rockwellcollins/atc/agree/analysis/handlers/VerifyHandler.java:441-465 | What the first loop leaves is a suffix of the queue |
| `VerifyHandler.DrainedExecuted` | agree/com.rockwellcollins.atc.agree.analysis/src/com/rockwellcollins/atc/agree/analysis/handlers/VerifyHandler.java:441-465 | Every removed result completed, and only the head left behind was otherwise executed |
| `VerifyHandler.DrainedStops` | agree/com.rockwellcollins.atc.agree.analysis/src/com/rockwellcollins/atc/agree/analysis/handlers/VerifyHandler.java:441-465 | The first loop stops only at an empty queue, a cancellation or a failed head; the thread dies exactly on an escaping head and hangs on a stalling one |
| `VerifyHandler.DrainFinishes` | agree/com.rockwellcollins.atc.agree.analysis/src/com/rockwellcollins/atc/agree/analysis/handlers/VerifyHandler.java:441-469 | When no execution escapes or stalls, the thread reaches the cancelling loop |
| `VerifyHandler.VerifyHandler.RunHeads` | agree/com.rockwellcollins.atc.agree.analysis/src/com/rockwellcollins/atc/agree/analysis/handlers/VerifyHandler.java:441-465 | The first loop executes and removes the heads as the drain says |
| `VerifyHandler.VerifyHandler.CancelRest` | agree/com.rockwellcollins.atc.agree.analysis/src/com/rockwellcollins/atc/agree/analysis/handlers/VerifyHandler.java:467-469 | Every result left is cancelled, in order, and the queue is emptied |
| `VerifyHandler.VerifyHandler.DoAnalysis` | agree/com.rockwellcollins.atc.agree.analysis/src/com/rockwellcollins/atc/agree/analysis/handlers/VerifyHandler.java:432-478 | The executions are the drain's; a finished thread empties the queue and cancels what was left, a dead or hung one leaves it |
| `VerifyComposedContract.ComposedHandler.RunJob` | agree/com.rockwellcollins.atc.agree.analysis/src/com/rockwellcollins/atc/agree/analysis/handlers/VerifyComposedContract.java:77-158 | The status is the job plan's, and a result is queued only when the plan says so |
| `VerifyComposedContract.StatusOf` | agree/com.rockwellcollins.atc.agree.analysis/src/com/rockwellcollins/atc/agree/analysis/handlers/VerifyComposedContract.java:113-116 | OK exactly when a result is queued, cancel exactly when nothing instantiates; a failure reports the messages of its cause chain |
| `VerifyComposedContract.QueuedPlan` | agree/com.rockwellcollins.atc.agree.analysis/src/com/rockwellcollins/atc/agree/analysis/handlers/VerifyComposedContract.java:84-157 | A result is queued only for a selected implementation or subcomponent that instantiates, has an AGREE subclause and builds |
| `VerifyComposedContract.PlannedDirection` | agree/com.rockwellcollins.atc.agree.analysis/src/com/rockwellcollins/atc/agree/analysis/handlers/VerifyComposedContract.java:84-157 | Diagnosis queues with a null component and the diagnosis contract; composition with the implementation and its contract |
| `VerifyComposedContract.NoAnnexStops` | agree/com.rockwellcollins.atc.agree.analysis/src/com/rockwellcollins/atc/agree/analysis/handlers/VerifyComposedContract.java:99-106 | An instance type without an AGREE subclause stops the job with that message, before anything is built |
| `VerifyComposedContract.JobWraps` | agree/com.rockwellcollins.atc.agree.analysis/src/com/rockwellcollins/atc/agree/analysis/handlers/VerifyComposedContract.java:108-112 | Past instantiation and the annex check, the job is the wrapping step |
| `VerifyComposedContract.ContractSubclauses` | agree/com.rockwellcollins.atc.agree.analysis/src/com/rockwellcollins/atc/agree/analysis/handlers/VerifyComposedContract.java:100-103 | The result holds exactly the AGREE subclauses the owned annexes carry (an AGREE annex itself, or the one parsed from a default annex), and is empty exactly when there is none, which is what the no-annex check tests |
| `VerifyComposedContract.ComposedHandler.WrapVerificationResult` | agree/com.rockwellcollins.atc.agree.analysis/src/com/rockwellcollins/atc/agree/analysis/handlers/VerifyComposedContract.java:160-166 | The composition program is queued with the implementation and its contract |
| `VerifyComposedContract.ComposedHandler.WrapDiagnosisResult` | agree/com.rockwellcollins.atc.agree.analysis/src/com/rockwellcollins/atc/agree/analysis/handlers/VerifyComposedContract.java:168-180 | The diagnosis program is queued with a null component and the subcomponent type's contract |
| `VerifyComposedContract.DiagnosisContract` | agree/com.rockwellcollins.atc.agree.analysis/src/com/rockwellcollins/atc/agree/analysis/handlers/VerifyComposedContract.java:171-178 | The contract is the parsed subclause of the first default annex, or null |
| `VerifyComposedContract.FindDiagnosisContract` | agree/com.rockwellcollins.atc.agree.analysis/src/com/rockwellcollins/atc/agree/analysis/handlers/VerifyComposedContract.java:172-178 | The loop yields that contract |
| `VerifyComposedContract.ComposedHandler.WrapResult` | agree/com.rockwellcollins.atc.agree.analysis/src/com/rockwellcollins/atc/agree/analysis/handlers/VerifyComposedContract.java:108-145 | The branch taken wraps the result the selection asks for |
| `VerifyComposedContract.ComposedHandler.CreateVerification` | agree/com.rockwellcollins.atc.agree.analysis/src/com/rockwellcollins/atc/agree/analysis/handlers/VerifyComposedContract.java:182-200 | The renamings are made on fresh bookkeeping; exactly one result is queued and registered, and an exception leaves queue and linker as they were |
| `VerifyComposedContract.Register` | agree/com.rockwellcollins.atc.agree.analysis/src/com/rockwellcollins/atc/agree/analysis/handlers/VerifyComposedContract.java:192-197 | The linker gains the Redlog program, component, contract, layout, reference map and log for the result |
| `VerifyComposedContract.RegisteredReadsBack` | agree/com.rockwellcollins.atc.agree.analysis/src/com/rockwellcollins/atc/agree/analysis/handlers/VerifyComposedContract.java:192-197 | The linker reads back what was registered, and no Lustre program |
| `VerifyComposedContract.AddRenamings` | agree/com.rockwellcollins.atc.agree.analysis/src/com/rockwellcollins/atc/agree/analysis/handlers/VerifyComposedContract.java:204-232 | All variables, inputs, outputs and contract keys are referenced in that order, then the program's properties appended, or the first exception |
| `VerifyComposedContract.ComposedRenamingsMeaning` | agree/com.rockwellcollins.atc.agree.analysis/src/com/rockwellcollins/atc/agree/analysis/handlers/VerifyComposedContract.java:204-232 | Fails exactly when an AGREE variable has no reference string; otherwise every AGREE variable is a key and the properties gain exactly the program's |
| `VerifyComposedContract.ContractKeys` | agree/com.rockwellcollins.atc.agree.analysis/src/com/rockwellcollins/atc/agree/analysis/handlers/VerifyComposedContract.java:225-229 | Every key of the contract map once |
| `VerifyComposedContract.Composed` | agree/com.rockwellcollins.atc.agree.analysis/src/com/rockwellcollins/atc/agree/analysis/handlers/VerifyComposedContract.java:160-170 | The composed-contract program for a built instance |
| `VerifyComposedContract.ComposedHandler.DoAnalysis` | agree/com.rockwellcollins.atc.agree.analysis/src/com/rockwellcollins/atc/agree/analysis/handlers/VerifyComposedContract.java:234-281 | The corrected drain: executions in FIFO order, and unless one hangs every result left is cancelled and the queue emptied |
| `VerifyComposedContract.CorrectedDrainFinishes` | agree/com.rockwellcollins.atc.agree.analysis/src/com/rockwellcollins/atc/agree/analysis/handlers/VerifyComposedContract.java:243-273 | With every exception caught, the thread reaches the cancelling loop unless an execution hangs |
| `VerifyComposedContract.AsWrittenDrainDies` | agree/com.rockwellcollins.atc.agree.analysis/src/com/rockwellcollins/atc/agree/analysis/handlers/VerifyComposedContract.java:259-273 | As written, a head whose script fails kills the thread with the head still queued and nothing cancelled |
| `VerifyComposedContract.SatScriptEscapes` | agree/com.rockwellcollins.atc.agree.analysis/src/com/rockwellcollins/atc/agree/analysis/redlog/RedlogApi.java:50-52 | A program with neither an int nor a real variable fails in `toString` outside the driver's `try`, leaving the result unchanged |
| `VerifyComposedContract.ComposedHandler.constructor` | agree/com.rockwellcollins.atc.agree.analysis/src/com/rockwellcollins/atc/agree/analysis/handlers/VerifyHandler.java:80-81 | The handler starts with the linker, an empty queue and nothing executed |
| `Text.EscapeUnderscores` | agree/com.rockwellcollins.atc.agree.analysis/src/com/rockwellcollins/atc/agree/analysis/redlog/RedlogProgram.java:142 | After escaping every `_` is preceded by `!` |
| `Text.UnescapeUnderscores` | agree/com.rockwellcollins.atc.agree.analysis/src/com/rockwellcollins/atc/agree/analysis/redlog/RedlogProgram.java:142 | Deleting every `!` from the escaped text gives the original text with its `!`s deleted |
| `Text.ParsePrintedNat` | agree/com.rockwellcollins.atc.agree.analysis/src/com/rockwellcollins/atc/agree/analysis/redlog/XmlParseThread.java:147 | A printed natural within the int range parses back to itself |
| `Text.NatToStringInjective` | agree/com.rockwellcollins.atc.agree.analysis/src/com/rockwellcollins/atc/agree/analysis/redlog/RedlogAstBuilder.java:63 | Distinct naturals print differently |

## Left out

- Process, file and console I/O are not modelled: the script file, the `redpsl.bat` command line, the sleep-and-retry polling, the echo to standard output and `safeDelete`. An `Env` parameter gives what the process produces.
- Threads run sequentially: the parse thread, the input stream and the analysis threads of both handlers. Their point is concurrency, which is not modelled.
- The XML DOM parser is a foreign library. It is replaced by a recogniser of exactly the line layout `XmlWriter` produces. That recogniser reads `&`, `"` and `>` literally, where the DOM decodes entity references and rejects malformed markup; the writer escapes nothing. The recogniser-level lemmas, such as `RedlogApi.ExtractedReadBack` and `XmlParseThread.WrittenFileRead`, say nothing about what the DOM makes of text outside `XmlParseThread.XmlText`.
- `RedlogApi.ValidRoundTrip`, `RedlogApi.InvalidRoundTrip` and `RedlogApi.UnknownNeverReturns` are stated only for plain XML text (`XmlParseThread.XmlText`: printable ASCII without `<`, `>`, `&` or `"`). On other text the DOM would decode or reject what the writer printed.
- `Text.Lower`: lower-cases ASCII letters only. Java's `toLowerCase` is Unicode- and locale-aware; the two agree on AADL identifiers and on the writer's answers.
- Floating point is not modelled. `Double.parseDouble`, the division by 1000 and the printing of the runtime are the `seconds` parameter.
- The UI is not modelled: dialogs, `showView`, handler activation, the rerun handler and `clearView`.
- jkind and OSATE internals are abstract. `Expr.toString` is the printer `Ast.Render`, `getRelativeLocation` is a field of the element, and `isArbitrary` is the absence of a value.
- `ExprConverter.Reconstruct`: its own contract only states that null bindings stay null. What it computes is stated by `ReconstructShape`, `ReconstructCallFree`, `UnsupportedRejected`, `ReconstructInCall` and `NodeCallInlined`.
- `ExprConverter.Reconstruct`: node inlining is bounded by a fuel parameter, and running out stands for Java's `StackOverflowError` on a recursive node.
- `VerifyHandler.ReferenceStrCases`: the identity test `prefix == ""` is taken as content equality.
- `AgreeRenaming` and `AgreeLayout` internals are not modelled. The names the renaming maps to null are the `erased` parameter.
- The `cancel()` calls the drain makes are recorded in a list rather than acting on results.
- `VerifyHandler.VerifyHandler.CreateVerification`: the component implementation is taken as non-null.
- JVM exception messages other than those of AGREE exceptions are taken as null. A cyclic cause chain cannot be written down.
- A class-cast failure on an annex that is not an AGREE annex is not modelled. The inherited annexes of `getAllAnnexSubclauses` are taken as the owned ones.
- `AgreeASTBuilder` and AADL instantiation are parameters.
- The execution of a queued result in the drain is an abstract step.
- Unused parameters are kept but never read: `agreeProgram` in the composed handler, the builder's `dir` and the stored timeout.
- In `execute`'s catch block the second `toString` call and the standard-output prints are left out.
- HashMap iteration order is left open. `ToString` picks any value of the contract map, and `ContractKeys` yields the keys in any order.
- `IdRewrite.RewriteFields`: record fields are visited in list order, where the visitor walks the fields map in its own iteration order. So when several fields are unsupported, the exception the model reports may not be the one Java raises first.
- `VerifyComposedContract.ComposedHandler.DoAnalysis` uses the corrected drain (see Findings); the as-written drain is `StepAsWritten`.
- `ExprConverter.Converter.constructor` uses the corrected summary step `Note` (see Findings), which tests the root name; the code as written tests the marked name and is `SummaryAsWritten` on `NoteAsWritten`.
- `ExprConverter.Converter.Summarize` uses the corrected step `Note` (see Findings); the loop as written is `SummaryAsWritten` on `NoteAsWritten`.
- `ExprConverter.SummarizeTable` is the corrected loop (see Findings); the loop as written is `SummaryAsWritten`, which can leave a root at a lower order.
- `ExprConverter.NoteNames` is the corrected inner loop (see Findings); the step as written is `NoteAsWritten`, which can overwrite a higher order.
- `RedlogAstBuilder.SystemContractsMeaning`: every `systemContracts` entry holds all assumptions and all guarantees, because the code shares one pair of lists between the entries. The model follows the code.
- `XmlWriter.RootNotClosed`: the root mismatch is stated rather than repaired; the parse thread reads only the `Property` blocks.
- Outside the modelled core: `VerifyHandler.runJob`, `buildAnalysisResult`, the recursive, realizability and consistency paths, and the Lustre builders.

## Findings

| source | as written | input that shows it | evidently intended | confidence | as-written member | corrected member |
|---|---|---|---|---|---|---|
| agree/com.rockwellcollins.atc.agree.analysis/src/com/rockwellcollins/atc/agree/analysis/redlog/ExprConverter.java:77-80 | The summary loop tests `containsKey(varName)` on the marked name but stores under `varRootName`, so a marked name visited after a higher order overwrites that order | `pre^17(x) + pre(x)`: orders 17 and 1 share a bucket of the 16-bucket HashMap and 17 is visited first, leaving `x` at order 1 | Each root name maps to its highest order | not executed | `ExprConverter.AsWrittenLosesHighestOrder` (on `SummaryAsWritten`) | `ExprConverter.NoteKeeps` and `ExprConverter.SummarizeTable` (on `Note`) |
| agree/com.rockwellcollins.atc.agree.analysis/src/com/rockwellcollins/atc/agree/analysis/handlers/VerifyComposedContract.java:259 | The drain catches only `RedlogException`, but `RedlogProgram.toString` runs outside `RedlogApi`'s `try` (RedlogApi.java:50-52) and throws an AGREE exception (RedlogProgram.java:77). That exception kills the analysis thread, so the queue is never cancelled or emptied | A composed program whose variables are all `bool` | The drain ends the first loop on the failure and cancels what is left | not executed | `VerifyComposedContract.AsWrittenDrainDies` (on `StepAsWritten`) | `VerifyComposedContract.CorrectedDrainFinishes` (on `CorrectedStep`, used by `ComposedHandler.DoAnalysis`) |
