# Create-implementing-class quick assist: a Dafny model

This project models the core of an Eclipse JDT quick-assist plug-in. The plug-in offers one
assist in the Java editor. When the caret is on the name in a type declaration, the assist
opens the new-class wizard. The wizard is seeded with `NameImpl` as the class name and the
selected type as its one super-interface.

The model covers two source files:

- `QuickAssistProcessor.java` becomes module `QuickAssist` (`quick_assist.dfy`). It holds:
  - the eligibility chain: an assist context, a Java editor, a `SimpleName` node, a
    `TypeDeclaration` parent;
  - the gate on hard errors (`noErrorsAtLocation`);
  - the visitor that collects the outermost nodes fully inside the selection
    (`getFullyCoveredNodes`);
  - `getAssists` and `hasAssists`.
- `TypeCreator.java` becomes module `Proposals` (`proposals.dfy`). It holds:
  - the generic-looking type name (`getTypeName`);
  - the HTML escaping of that name (`nameToHTML`);
  - the choice among four display labels;
  - the wizard seed (`fillInWizardPageName`);
  - the preview text (`getAdditionalProposalInfo`);
  - the decision in `apply` to record the created type and to try an import.
- Module `JavaModel` (`java_model.dfy`) holds plain handles for packages, compilation units
  and types, with their parent links.

The form follows the source. The loops are methods with loop invariants, proved equal to
reference functions: `GetTypeName`, `NameToHtml`, `NoErrorsAtLocation`. The preview text of
`GetAdditionalProposalInfo` is a straight sequence of appends, given exactly. The proposal object is a class whose methods update its fields.
The visitor is a class that appends to its `coveredNodes` list during a recursive traversal.
The nodes it collects are also placed in the tree by paths of child indices. The lemmas prove
that those paths are outermost, never nested, and in pre-order. In a tree where every child's
span lies inside its parent's span, as the parser guarantees, they also prove the converse:
every outermost covered node is collected.

Some behaviours of the code that are easy to misread:

- With zero type arguments `getTypeName` yields `Name<>`, not the bare name
  (`TypeCreator.java:102-114`; see `Proposals.TypeArgumentsRecovered`).
- The display label depends on the constructor's `typeContainer` argument. The processor
  passes `null` as the container argument of the proposal it builds
  (`QuickAssistProcessor.java:97-98`). The label does not depend on the resolved
  container stored in the field. The `{1}` argument of the two "in ..." labels is the
  selected name's qualifier, not the container's name (`TypeCreator.java:63-90`).
- A node counts as covered when its span lies inside the selection span: `start >= offset`
  and `start + length <= offset + length`. A subtree is pruned only when it ends strictly
  before the selection or starts strictly after it, so a node that merely touches the
  selection at either end is still visited (`QuickAssistProcessor.java:133,152`). A leaf
  wider than the selection is not covered, so it yields nothing, not itself
  (`QuickAssist.LeafCovered`).
- The error gate is not part of the eligibility chain. `getAssists` applies it before the
  chain, and `hasAssists` does not apply it (`QuickAssistProcessor.java:35-57`).

## Model

| member | source | states |
|---|---|---|
| `Proposals.GetTypeName` | ca.jacob.quickassist/src/ca/jacob/quickassist/proposals/TypeCreator.java:95-119 | The buffer it builds equals the reference name. Outside the type slot of a parameterized type, the result is exactly the identifier. With one type argument, the result is `id + "<" + letter + ">"`, with no numeric suffix. |
| `Proposals.PlaceholderLetter` | ca.jacob.quickassist/src/ca/jacob/quickassist/proposals/TypeCreator.java:99-100 | The placeholder letter is 'S' exactly when the identifier starts with 'T', and 'T' otherwise. |
| `Proposals.JoinSnoc` | ca.jacob.quickassist/src/ca/jacob/quickassist/proposals/TypeCreator.java:107-112 | Appending ", " and one more part (or the part alone, when the list is empty) extends the front-built ", "-joined list. This links the loop to the reference definition. |
| `Proposals.DecimalString` | ca.jacob.quickassist/src/ca/jacob/quickassist/proposals/TypeCreator.java:111 | The numeric suffix text is non-empty and made only of decimal digits. |
| `Proposals.DecimalRoundTrip` | ca.jacob.quickassist/src/ca/jacob/quickassist/proposals/TypeCreator.java:111 | Reading the suffix text back as a decimal numeral gives the number that was appended. |
| `Proposals.SplitJoin` | ca.jacob.quickassist/src/ca/jacob/quickassist/proposals/TypeCreator.java:107-112 | Cutting a ", "-joined, non-empty list of comma-free parts at each ", " gives back the parts, in order. |
| `Proposals.TypeArgumentsRecovered` | ca.jacob.quickassist/src/ca/jacob/quickassist/proposals/TypeCreator.java:99-115 | In the type slot, the name is the identifier followed by text in angle brackets. Zero arguments give exactly `id<>`. One argument gives exactly the bare letter. Two or more give exactly n arguments, argument i being the letter followed by the numeral for i + 1, and joining them with ", " gives the bracketed text back. |
| `Proposals.NameToHtml` | ca.jacob.quickassist/src/ca/jacob/quickassist/proposals/TypeCreator.java:237-248 | The buffer gains the escaped name: '<' becomes `&lt;`, '>' becomes `&gt;`, and every other character is copied in order. |
| `Proposals.EscapeAppend` | ca.jacob.quickassist/src/ca/jacob/quickassist/proposals/TypeCreator.java:238-247 | Escaping works character by character: escaping a concatenation is concatenating the escapes. |
| `Proposals.EscapeHasNoAngleBrackets` | ca.jacob.quickassist/src/ca/jacob/quickassist/proposals/TypeCreator.java:237-248 | The escaped text contains no '<' and no '>'. |
| `Proposals.EscapeKeepsBracketFree` | ca.jacob.quickassist/src/ca/jacob/quickassist/proposals/TypeCreator.java:244-246 | Text without angle brackets comes out of escaping unchanged. |
| `Proposals.EscapeIdempotent` | ca.jacob.quickassist/src/ca/jacob/quickassist/proposals/TypeCreator.java:237-248 | Escaping twice gives the same text as escaping once. |
| `Proposals.UnescapeEscape` | ca.jacob.quickassist/src/ca/jacob/quickassist/proposals/TypeCreator.java:237-248 | For text without '&', undoing the two entities gives back the original text. |
| `Proposals.TypeNameSurvivesEscaping` | ca.jacob.quickassist/src/ca/jacob/quickassist/proposals/TypeCreator.java:231 | When the identifier has no '&', neither does the generated name. The type signature in the preview can then be read back exactly. |
| `Proposals.ChooseDisplayName` | ca.jacob.quickassist/src/ca/jacob/quickassist/proposals/TypeCreator.java:63-90 | Exactly one of four templates applies, chosen by two facts: whether the container is a type and whether the qualifier is empty. Only the top-level unqualified label appends "Impl". The qualified labels take the type label and the qualifier. |
| `Proposals.WizardResult` | ca.jacob.quickassist/src/ca/jacob/quickassist/proposals/TypeCreator.java:127-153 | A cancelled dialog, or a headless creation that failed or was interrupted, yields no type. A type is yielded only by the path that `showDialog` selects. |
| `Proposals.ImportContainer` | ca.jacob.quickassist/src/ca/jacob/quickassist/proposals/TypeCreator.java:155-159 | After stepping over a compilation-unit parent, the container of a well-formed type is a package or a type. |
| `Proposals.TypeCreator.constructor` | ca.jacob.quickassist/src/ca/jacob/quickassist/proposals/TypeCreator.java:51-93 | The container field is the compilation unit's parent, whatever was passed. No type has been created yet and the dialog is shown. The label is chosen from the ARGUMENT container and the name's qualifier. |
| `Proposals.TypeCreator.WizardSeed` | ca.jacob.quickassist/src/ca/jacob/quickassist/proposals/TypeCreator.java:191-208 | The wizard gets the type name plus "Impl", and exactly one super-interface: the type name. The container is set as the enclosing type when it is a type, and as the package otherwise. |
| `Proposals.TypeCreator.Apply` | ca.jacob.quickassist/src/ca/jacob/quickassist/proposals/TypeCreator.java:127-170 | `createdType` changes only when a type was created; otherwise it keeps its old value. An import is attempted exactly when a type was created whose container differs from the field. An import failure changes nothing else. |
| `Proposals.TypeCreator.GetAdditionalProposalInfo` | ca.jacob.quickassist/src/ca/jacob/quickassist/proposals/TypeCreator.java:214-235 | The preview text is: the info message, two breaks, the tooltip for the container's kind, the bold container label, and `public class` with the escaped name in bold and an empty body. |
| `Proposals.TypeCreator.IsShowDialog` | ca.jacob.quickassist/src/ca/jacob/quickassist/proposals/TypeCreator.java:250-252 | Reports the dialog flag. |
| `Proposals.TypeCreator.SetShowDialog` | ca.jacob.quickassist/src/ca/jacob/quickassist/proposals/TypeCreator.java:254-256 | Sets only the dialog flag. |
| `Proposals.TypeCreator.GetCreatedType` | ca.jacob.quickassist/src/ca/jacob/quickassist/proposals/TypeCreator.java:258-260 | Reports the last created type, if any. |
| `Proposals.TypeCreator.GetTypeKind` | ca.jacob.quickassist/src/ca/jacob/quickassist/proposals/TypeCreator.java:262-264 | Reports the type kind given at construction. |
| `QuickAssist.CheckEligibility` | ca.jacob.quickassist/src/ca/jacob/quickassist/QuickAssistProcessor.java:72-90 | The assist applies exactly when all four checks hold. Otherwise the verdict names the first check that failed, in source order, and implies that every earlier check passed. |
| `QuickAssist.GetCreateInterfaceProposal` | ca.jacob.quickassist/src/ca/jacob/quickassist/QuickAssistProcessor.java:69-102 | Returns true exactly when eligible. In that case it appends one proposal (class kind, relevance 6, no container, this compilation unit and node) and leaves the rest of the list unchanged. Otherwise the list is untouched. |
| `QuickAssist.ProposalList.Add` | ca.jacob.quickassist/src/ca/jacob/quickassist/QuickAssistProcessor.java:99 | Appends one proposal at the end of the list. |
| `QuickAssist.HasAssists` | ca.jacob.quickassist/src/ca/jacob/quickassist/QuickAssistProcessor.java:35-41 | True exactly when there is a covering node and the eligibility chain holds. No error gate is applied. |
| `QuickAssist.HasAssistsAsWritten` | ca.jacob.quickassist/src/ca/jacob/quickassist/QuickAssistProcessor.java:35-41 | As written, it fails with a null dereference exactly when the node is eligible, and otherwise answers false. |
| `QuickAssist.HasAssistsAsWrittenFailsWhenEligible` | ca.jacob.quickassist/src/ca/jacob/quickassist/QuickAssistProcessor.java:38 | A simple name heading a type declaration, in a Java editor's assist context, makes the as-written `hasAssists` dereference the null list. |
| `QuickAssist.NoErrorsAtLocation` | ca.jacob.quickassist/src/ca/jacob/quickassist/QuickAssistProcessor.java:104-120 | Returns true for a null array, and for an empty one. Otherwise it returns false exactly when some location is an error that is not a Java-model problem with a configurable problem id. |
| `QuickAssist.NonErrorsIrrelevant` | ca.jacob.quickassist/src/ca/jacob/quickassist/QuickAssistProcessor.java:106-117 | Dropping every location that is not an error never changes the verdict. |
| `QuickAssist.NoBlockingErrorConcat` | ca.jacob.quickassist/src/ca/jacob/quickassist/QuickAssistProcessor.java:106-117 | Two lists joined pass the gate exactly when each passes it. |
| `QuickAssist.OrderIrrelevant` | ca.jacob.quickassist/src/ca/jacob/quickassist/QuickAssistProcessor.java:105-119 | Two location lists with the same elements, in any order, get the same verdict. |
| `QuickAssist.CoveredNodesVisitor.VisitNode` | ca.jacob.quickassist/src/ca/jacob/quickassist/QuickAssistProcessor.java:127-153 | A node disjoint from the selection is pruned. A covered node whose parent is absent or not covered is recorded, and its children are skipped. Any other node asks for its children. |
| `QuickAssist.CoveredNodesVisitor.Accept` | ca.jacob.quickassist/src/ca/jacob/quickassist/QuickAssistProcessor.java:126-154 | The traversal appends to the list exactly what the reference collection yields for the subtree. |
| `QuickAssist.GetFullyCoveredNodes` | ca.jacob.quickassist/src/ca/jacob/quickassist/QuickAssistProcessor.java:122-156 | Returns the reference collection for the covering node, its parent and the selection `[offset, offset + length]`. |
| `QuickAssist.CoveredPathsLocate` | ca.jacob.quickassist/src/ca/jacob/quickassist/QuickAssistProcessor.java:126-154 | Each returned node has a path into the covering node's subtree, and the paths come in the same order as the nodes. |
| `QuickAssist.OutermostLift` | ca.jacob.quickassist/src/ca/jacob/quickassist/QuickAssistProcessor.java:133-146 | A path that is outermost under a child stays outermost under the parent, when the parent meets the selection. |
| `QuickAssist.CoveredPathsOutermost` | ca.jacob.quickassist/src/ca/jacob/quickassist/QuickAssistProcessor.java:133-146 | Every returned node lies inside the selection and its parent does not. No node on its path is disjoint from the selection. |
| `QuickAssist.CoveredPathsOrdered` | ca.jacob.quickassist/src/ca/jacob/quickassist/QuickAssistProcessor.java:126-146 | The returned paths are in strict pre-order. |
| `QuickAssist.PrecedesNotPrefix` | ca.jacob.quickassist/src/ca/jacob/quickassist/QuickAssistProcessor.java:137-141 | Of two paths in strict pre-order, neither is an ancestor of the other. |
| `QuickAssist.FullyCoveredNodesAreOutermost` | ca.jacob.quickassist/src/ca/jacob/quickassist/QuickAssistProcessor.java:126-152 | Every returned node is fully covered and its parent is null or not covered. No returned node is a descendant of another. Nothing comes from a subtree disjoint from the selection. The nodes appear in pre-order. |
| `QuickAssist.OutermostCollected` | ca.jacob.quickassist/src/ca/jacob/quickassist/QuickAssistProcessor.java:126-152 | In a well-nested tree, a covered node whose parent is not covered (at the top, whose given parent is not) has its path among the collected paths. |
| `QuickAssist.FullyCoveredNodesComplete` | ca.jacob.quickassist/src/ca/jacob/quickassist/QuickAssistProcessor.java:122-156 | In a well-nested tree, a path is collected if and only if it is outermost. The node at an outermost path is returned at that path's position. |
| `QuickAssist.LeafCovered` | ca.jacob.quickassist/src/ca/jacob/quickassist/QuickAssistProcessor.java:133-146 | A leaf yields itself exactly when it is covered and its parent is not. Otherwise it yields nothing, even a leaf that contains the selection. |
| `QuickAssist.GetAssists` | ca.jacob.quickassist/src/ca/jacob/quickassist/QuickAssistProcessor.java:44-58 | Returns null exactly when there is no covering node. When a blocking error is present it returns an empty array. Otherwise it returns the single proposal when eligible, and an empty array when not. |

## Findings

| source | as written | input that shows it | evidently intended | confidence | as-written member | corrected member |
|---|---|---|---|---|---|---|
| ca.jacob.quickassist/src/ca/jacob/quickassist/QuickAssistProcessor.java:38 | `hasAssists` passes a null list to `getCreateInterfaceProposal`, which appends to it at line 99 once the node is eligible | a `SimpleName` whose parent is a `TypeDeclaration`, in an assist context of a Java editor | answer true for an eligible node | high, not executed | `QuickAssist.HasAssistsAsWritten`, `QuickAssist.HasAssistsAsWrittenFailsWhenEligible` | `QuickAssist.HasAssists` |

## Left out

- Wizard and dialog UI: the wizard, its shell, the page size and `dialog.open()`. Their outcome is an input to `Apply`: a finished or cancelled dialog, or a created, failed or interrupted headless creation. The `Assert.isTrue` on the wizard's first page is not modelled.
- The JDT syntax tree and Java model are not part of this model. Node kinds, context and editor kinds, and marker types are enums. Compilation units, packages and types are handles with a parent link. The "type slot of a parameterized type, with n type arguments" that `getTypeName` reads through `getLocationInParent` is a field of the name.
- `JavaCore.getOptionForConfigurableSeverity` is the `configurable` set of problem ids: an id is in the set exactly when the option is non-null.
- Message and label resources and images. Templates are an enum plus their arguments. The preview's three messages are parameters. `BasicElementLabels.getJavaElementName` is taken as the identity. The container label from `JavaElementLabels.getElementLabel` is a parameter.
- Import rewriting and logging. `Proposals.TypeCreator.Apply`: reports only whether the import was attempted, not the fully qualified name or the edit; a failed import is swallowed, so nothing else depends on it.
- `CreateTypeUsingWizardProposal` is not part of this model. The processor's proposal is a record of the arguments it is built with, and its `K_CLASS` is a constant whose value is left open.
- `QuickAssist.FullyCoveredNodesComplete`: the completeness direction holds only for well-nested trees (each child's span inside its parent's). The parser guarantees this; the node datatype does not enforce it.
- Marker types other than the Java model problem marker are one value; the adapter maps the marker id string onto `JavaModelProblemMarker` exactly when it equals that marker's id.
- The constructor's first assignment `fTypeContainer = typeContainer` is not modelled, because it is overwritten at once. The image and the empty initial display name are not modelled either.
- Offsets, lengths and their sums are unbounded integers. 32-bit overflow of `start + length` is not modelled.
- Java object identity of syntax nodes is not modelled. Nodes are values, and paths of child indices stand in for identity in the lemmas.
