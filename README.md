# macapptree accessibility-tree core, in Dafny

This project models the core of `macapptree`. That tool walks the macOS accessibility tree of an application window and builds a tree of `UIElement`s. Each element records:

- its role, title (as `name`), enabled flag and description;
- its absolute and window-relative position, its size and its bounding rectangles;
- its children, clipped to the parent's visible rectangle, and its actions;
- two identity hashes.

The tree can be serialised to a dictionary (`to_dict`), merged with the subtree found by a hit test (`extract_with_hit_test`), and outlined on a screenshot (`segment_image`). The model also covers the window selection of the mac-at screenshot tool (`gen_ids_from_info`, `gen_window_ids`, `find_window`).

The native accessibility API is a finite map from handles to attribute records (`Accessibility.Provider`). An unknown or null handle answers no attribute at all, which is what `element_attribute` returns when the native call fails. Python exceptions are `Failure` values:

- the interpreter's recursion limit is a `fuel` parameter that runs out (`RecursionLimit`);
- an `AXWindow` without a position fails with `NoWindowPosition`;
- a missing window bounds key or an empty window list are errors of their own.

md5 and `unidecode` are function parameters. md5's only assumed property (`Hashing.IsMd5`) is that it yields 32 lowercase hex digits.

Modules, following the source:

- `Wrappers`, `Json`, `Geometry`, `Strings`, `Accessibility`, `Elements`: the values. `Geometry` holds `_set_bboxes`; `Strings` holds `str.replace`, `str.lower` and the number formatting.
- `ChildOrder`: the filter, stable sort and reverse of `_get_children_and_actions`.
- `Hashing`: `hash_from_string`, `component_hash`, `content_hash`, `children_content_hash`, `calculate_hashes`.
- `TreeBuilder`: `UIElement.__init__`, `_get_children_and_actions`, `children` and `find_root_element`, as functions and as the source's imperative methods proved equal to them. `NodeFacts` and `TreeProperties` hold the properties.
- `Serializer`: `to_dict`, and a reader that proves what the dictionary preserves.
- `MutableElement`: the `UIElement` object whose children and hashes the extractor updates in place.
- `WindowTools`: `color_for_role`, `windows_are_equal`, `segment_image` over an append-only drawing canvas.
- `Extractor`: `extract_with_hit_test` and `extract_window`.
- `ScreenshotAppWindow`: the mac-at window list and window lookup.

Where the code and its surrounding description disagree, the model follows the code. Four such places:

- `_set_bboxes` treats a parent with no visible rectangle as no parent at all; see `NodeFacts.HiddenParentQuirk`.
- `self.center` adds the offsets back even where they were never subtracted; see `NodeFacts.BuildCenter`.
- The pass-through-wrapper test compares the child's raw position with the group's already window-relative one; see `NodeFacts.WrapperComparedRelative`.
- When the hit element's parent chain ends before any window-like element, `extract_with_hit_test` does not stop. It builds `UIElement(None, ...)`, an element with no attributes and role "No role". Its window attribute is None, so it is appended to the window and the hashes are recomputed; see `Extractor.NoRootAppends`.

## Model

| member | source | states |
|---|---|---|
| Accessibility.Lookup | mac-ax/macapptree/macapptree/uielement.py:385-403 | every attribute of an unknown or null handle is missing; a known handle answers its own attributes |
| Geometry.BBox | mac-ax/macapptree/macapptree/uielement.py:165-168 | the box starts at the position and spans exactly the size |
| Geometry.Clip | mac-ax/macapptree/macapptree/uielement.py:169-182 | no parent rectangle keeps the box; strictly separated rectangles (touching edges still overlap) give none; otherwise the intersection: contained in both, and containing every rectangle contained in both |
| Geometry.SetBboxes | mac-ax/macapptree/macapptree/uielement.py:160-182 | no position or no size gives no rectangles; otherwise the box and its visible part |
| Geometry.ClipWellFormed | mac-ax/macapptree/macapptree/uielement.py:177-180 | the visible part of two well-formed rectangles is well formed |
| Strings.JoinCharsAppend | mac-ax/macapptree/macapptree/uielement.py:296 | `sep.join` of a concatenation is the two joins with `sep` between, so `sep` sits between every two neighbouring characters |
| Strings.JoinCharsSnoc | mac-ax/macapptree/macapptree/uielement.py:296 | one more character adds one separator and that character at the end |
| Strings.ReplaceChar | mac-ax/macapptree/macapptree/uielement.py:91-92 | every occurrence of one character is replaced and no other character changes |
| Strings.Lower | mac-at/macapptree/macapptree/screenshot_app_window.py:61-65 | upper-case ASCII letters become lower case, every other character is kept, and the length is kept |
| Strings.IntToString | mac-ax/macapptree/macapptree/uielement.py:256-257 | the decimal text of an integer, with a minus sign exactly for negatives |
| Strings.SortStringsSpec | mac-ax/macapptree/macapptree/uielement.py:291 | `list.sort()` of strings gives a sorted permutation of its input |
| Strings.SortedUnique | mac-ax/macapptree/macapptree/uielement.py:291 | two sorted lists of strings that are permutations of each other are equal |
| Strings.SortStringsPermutationInvariant | mac-ax/macapptree/macapptree/uielement.py:291 | sorting permutations of one list gives the same list |
| ChildOrder.WithPosition | mac-ax/macapptree/macapptree/uielement.py:228 | every kept child has a position |
| ChildOrder.WithPositionCount | mac-ax/macapptree/macapptree/uielement.py:228 | each child with a position is kept exactly as often as it occurs among the built children, and no child without one is kept |
| ChildOrder.WithPositionAppend | mac-ax/macapptree/macapptree/uielement.py:228 | the filter distributes over concatenation, so it keeps the native order |
| ChildOrder.WithKeyWithPosition | mac-ax/macapptree/macapptree/uielement.py:228 | keeping one key and keeping the positioned children commute |
| ChildOrder.SortByKeySpec | mac-ax/macapptree/macapptree/uielement.py:229-231 | the sort yields a permutation ascending in `(y, x)` |
| ChildOrder.SortStable | mac-ax/macapptree/macapptree/uielement.py:229-231 | the sort keeps children with equal `(y, x)` in their original order |
| ChildOrder.Reverse | mac-ax/macapptree/macapptree/uielement.py:232 | the i-th element is the i-th from the end |
| ChildOrder.OrderChildrenSpec | mac-ax/macapptree/macapptree/uielement.py:228-232 | each built child with a position occurs in the result exactly as often as among the built children, and no other child does; the result is non-increasing in `(y, x)` |
| ChildOrder.OrderChildrenMembers | mac-ax/macapptree/macapptree/uielement.py:228-232 | every ordered child was built and has a position |
| ChildOrder.OrderChildrenEqualKeys | mac-ax/macapptree/macapptree/uielement.py:228-232 | the positioned built children with one `(y, x)` come out in the reverse of their order among the built children; for any key but `(0, 0)` these are all built children with that key |
| ChildOrder.OrderExample | mac-ax/macapptree/macapptree/uielement.py:228-232 | children at (10,5), (10,20), (30,0) (as y,x) come out as (30,0), (10,20), (10,5) |
| Hashing.HashFromStringSpec | mac-ax/macapptree/macapptree/uielement.py:248-251 | the hash is "" exactly for None or "", and a hex digest otherwise |
| Hashing.ComponentHashSpec | mac-ax/macapptree/macapptree/uielement.py:253-263 | the identifier is "" exactly when position or size is missing; otherwise it is the digest of position, size, enabled flag and role text |
| Hashing.ContentHashSpec | mac-ax/macapptree/macapptree/uielement.py:265-281 | the content digest is "" exactly when description, role description, name and value text are all empty |
| Hashing.ContentIdentifierSpec | mac-ax/macapptree/macapptree/uielement.py:283-296 | the content identifier is "" exactly when there are no children or every child identifier is ""; otherwise it is a digest |
| Hashing.StructureHashEmpty | mac-ax/macapptree/macapptree/uielement.py:295 | the structure digest is "" exactly when every child identifier is "" |
| Hashing.LeafContentIdentifier | mac-ax/macapptree/macapptree/uielement.py:284-285 | no children give the empty content identifier |
| Hashing.ContentIdentifierPermutationInvariant | mac-ax/macapptree/macapptree/uielement.py:288-296 | reordering the children's content identifiers, with the identifiers kept in order, does not change the content identifier |
| Hashing.EmptyContentJoin | mac-ax/macapptree/macapptree/uielement.py:294-296 | when every child content identifier is "", the join has an empty separator and the result is the digest of the structure digest |
| Hashing.WithHashesSpec | mac-ax/macapptree/macapptree/uielement.py:66-68 | `calculate_hashes` sets the component hash and the children's content hash and changes nothing else |
| Hashing.ChildrenContentHash | mac-ax/macapptree/macapptree/uielement.py:283-296 | the loop building both lists and sorting one computes the content identifier |
| TreeBuilder.DecDepth | mac-ax/macapptree/macapptree/uielement.py:328 | an unbounded depth stays unbounded; a bound drops by one |
| TreeBuilder.Relative | mac-ax/macapptree/macapptree/uielement.py:114-116 | each coordinate loses the offset only when the offset is non-negative |
| TreeBuilder.ChildSource | mac-ax/macapptree/macapptree/uielement.py:196-226 | a pass-through group wrapper takes its only child's children; every other element its own |
| TreeBuilder.ActionsOf | mac-ax/macapptree/macapptree/uielement.py:190-192 | the actions are the provider's, or none |
| TreeBuilder.BuildAllPrefixFailure | mac-ax/macapptree/macapptree/uielement.py:327-329 | once one child fails to build, the whole list fails with that error |
| TreeBuilder.NewElement | mac-ax/macapptree/macapptree/uielement.py:70-124 | the imperative constructor, with `self.position` aliasing `start_position`, builds the element the specification describes |
| TreeBuilder.CompleteElement | mac-ax/macapptree/macapptree/uielement.py:125-158 | the center, value, description, children, actions and hashes the specification describes |
| TreeBuilder.SetValue | mac-ax/macapptree/macapptree/uielement.py:141-148 | arrays copied item by item, nested elements built unbounded, as specified |
| TreeBuilder.GetChildrenAndActions | mac-ax/macapptree/macapptree/uielement.py:184-234 | the children and actions the specification describes |
| TreeBuilder.Children | mac-ax/macapptree/macapptree/uielement.py:313-330 | the loop over the native children builds the children the specification describes |
| TreeBuilder.FindRootElement | mac-ax/macapptree/macapptree/uielement.py:299-309 | a returned root is an AXWindow or an AXHostingView |
| NodeFacts.CompleteKeeps | mac-ax/macapptree/macapptree/uielement.py:125-158 | the rest of the construction keeps every field set before the early return |
| NodeFacts.BuildAttributes | mac-ax/macapptree/macapptree/uielement.py:84-119 | role defaults to "No role", name has spaces replaced, enabled defaults to false, absolute position raw, window position its own less its non-negative part, others made relative, rectangles clipped |
| NodeFacts.BuildOutcomes | mac-ax/macapptree/macapptree/uielement.py:70-158 | no fuel fails; a window without position fails; missing geometry returns early with empty value, center, actions, children and hashes; otherwise the full construction |
| NodeFacts.CompleteCenter | mac-ax/macapptree/macapptree/uielement.py:125-135 | the full construction reads description and role description and sets the center |
| NodeFacts.CompleteActions | mac-ax/macapptree/macapptree/uielement.py:150-154 | the actions are the provider's, or none with no children when the depth is used up |
| NodeFacts.CompleteHashes | mac-ax/macapptree/macapptree/uielement.py:156 | the hashes are those `calculate_hashes` computes from the finished fields |
| NodeFacts.BuildCenter | mac-ax/macapptree/macapptree/uielement.py:108-128 | the center is the absolute center whenever the offsets added back were subtracted; a negative offset moves it |
| NodeFacts.BuildCenterEquation | mac-ax/macapptree/macapptree/uielement.py:125-128 | twice the center as an equation in the raw position, size and offsets |
| NodeFacts.BuildDepth | mac-ax/macapptree/macapptree/uielement.py:151-154 | with the depth used up an element with geometry has no children, no actions and the empty content identifier |
| NodeFacts.BuildAllAttributes | mac-ax/macapptree/macapptree/uielement.py:325-330 | the i-th child built is the element of the i-th handle |
| NodeFacts.ChildrenProvenance | mac-ax/macapptree/macapptree/uielement.py:194-232 | every child comes from an AXChildren handle of the element, or of its only child for a wrapper, built with the same offsets, one less depth and the visible rectangle |
| NodeFacts.BuildChildren | mac-ax/macapptree/macapptree/uielement.py:184-234 | the children of a built element come from its own or its wrapper child's AXChildren and are clipped to its visible rectangle |
| NodeFacts.HiddenParentQuirk | mac-ax/macapptree/macapptree/uielement.py:169-182 | children of an element with no visible rectangle are not clipped at all |
| NodeFacts.WrapperComparedRelative | mac-ax/macapptree/macapptree/uielement.py:209-212 | with a positive offset a child at the group's own raw place is never taken for a wrapper |
| NodeFacts.BuildIsButton | mac-ax/macapptree/macapptree/uielement.py:380-381 | a built element is a button exactly when its native role is AXButton |
| NodeFacts.FindRootFirst | mac-ax/macapptree/macapptree/uielement.py:299-309 | the root found is the first AXWindow or AXHostingView on the parent chain; None when the chain ends first |
| NodeFacts.FindRootReaches | mac-ax/macapptree/macapptree/uielement.py:299-309 | enough fuel always finds that first root |
| NodeFacts.FindRootMonotone | mac-ax/macapptree/macapptree/uielement.py:299-309 | more fuel never changes a result once reached |
| NodeFacts.FindRootSelfParent | mac-ax/macapptree/macapptree/uielement.py:306-308 | an element that is its own parent and not a root exhausts the recursion |
| TreeProperties.BuildShape | mac-ax/macapptree/macapptree/uielement.py:70-234 | every built tree has positioned children ordered non-increasing in `(y, x)`, visible only inside their parent, within `max_depth` |
| TreeProperties.ShapedNode | mac-ax/macapptree/macapptree/uielement.py:151-232 | the shape facts of a node follow from those of its children |
| TreeProperties.BuildHashed | mac-ax/macapptree/macapptree/uielement.py:66-68 | every built node carries the hashes `calculate_hashes` computes, bottom-up |
| Serializer.ToDictKeys | mac-ax/macapptree/macapptree/uielement.py:361-375 | every dictionary has exactly the thirteen keys, in the source's order |
| Serializer.ChildrenToDict | mac-ax/macapptree/macapptree/uielement.py:334-338 | one dictionary per child |
| Serializer.PointTextRoundTrip | mac-ax/macapptree/macapptree/uielement.py:346-354 | the position text reads back as its point, "" as none |
| Serializer.SizeTextRoundTrip | mac-ax/macapptree/macapptree/uielement.py:356-359 | the size text reads back as its size, "" as none |
| Serializer.DecodeToDict | mac-ax/macapptree/macapptree/uielement.py:333-375 | reading a dictionary back gives the exported fields of the whole tree, children in order, nested elements as dumped documents |
| Serializer.DecodeAllChildren | mac-ax/macapptree/macapptree/uielement.py:334-338 | the children's dictionaries read back as their records, in order |
| Serializer.DateLooksLikeString | mac-ax/macapptree/macapptree/uielement.py:343-344 | a date and the string of its text are written out alike |
| Serializer.NoValueLooksLikeNull | mac-ax/macapptree/macapptree/uielement.py:340-367 | no value and a plain null are written out alike |
| MutableElement.UIElement.constructor | mac-ax/macapptree/macapptree/uielement.py:70-82 | the object holds the fields of the element built |
| MutableElement.UIElement.CalculateHashes | mac-ax/macapptree/macapptree/uielement.py:66-68 | the identifier and content identifier are recomputed from the current fields and children; nothing else changes |
| MutableElement.UIElement.AppendChild | mac-ax/macapptree/macapptree/extractor.py:51 | the child goes at the end and the hashes are not touched |
| WindowTools.UnmappedIsRed | mac-ax/macapptree/macapptree/window_tools.py:42-140 | every role outside the chain is red |
| WindowTools.ColorExamples | mac-ax/macapptree/macapptree/window_tools.py:42-140 | AXButton blue, AXGroup orange, AXWindow red; the first test wins: AXMenuItemSplitter black, AXMenuItemPopover darkmagenta |
| WindowTools.WindowsAreEqualEquivalence | mac-ax/macapptree/macapptree/window_tools.py:30-38 | window equality is reflexive, symmetric and transitive |
| WindowTools.WindowsAreEqualIgnoresTree | mac-ax/macapptree/macapptree/window_tools.py:30-38 | children, hashes and rectangles play no part in window equality |
| WindowTools.Canvas.constructor | mac-ax/macapptree/macapptree/window_tools.py:180-183 | a new drawer has drawn nothing |
| WindowTools.Canvas.Rectangle | mac-ax/macapptree/macapptree/window_tools.py:223 | one rectangle is added at the end of the log |
| WindowTools.SegmentImage | mac-ax/macapptree/macapptree/window_tools.py:171-226 | nothing without an image path; otherwise the pre-order outlines of the subtree are appended |
| WindowTools.SegmentWindow | mac-ax/macapptree/macapptree/window_tools.py:171-230 | a fresh canvas holding exactly the outlines, coloured by role |
| WindowTools.RectOrdered | mac-ax/macapptree/macapptree/window_tools.py:202-219 | after the clamp the bottom-right corner is never left of or above the top-left |
| WindowTools.ClampExact | mac-ax/macapptree/macapptree/window_tools.py:216-219 | a corner axis is kept exactly when neither negative nor behind; otherwise it becomes the top-left's |
| WindowTools.SegmentOpsWellFormed | mac-ax/macapptree/macapptree/window_tools.py:202-226 | every rectangle drawn is ordered and two pixels wide |
| WindowTools.SegmentOpsBound | mac-ax/macapptree/macapptree/window_tools.py:186-226 | the root is never outlined: at most one rectangle per proper descendant |
| WindowTools.SegmentIgnoresRoot | mac-ax/macapptree/macapptree/window_tools.py:186 | the root's own box, size and role do not affect the drawing |
| WindowTools.SkippedSubtreeIgnored | mac-ax/macapptree/macapptree/window_tools.py:187-200 | a child without a visible box or with an empty size contributes nothing, whatever its subtree |
| WindowTools.PreOrder | mac-ax/macapptree/macapptree/window_tools.py:214-226 | a drawable child's outline, in its role's colour, comes before its subtree's and after its earlier siblings' |
| WindowTools.SiblingsSplit | mac-ax/macapptree/macapptree/window_tools.py:186 | the siblings' outlines split at any index |
| Extractor.MergeShape | mac-ax/macapptree/macapptree/extractor.py:42-55 | the merge either keeps the children or appends the root at the end; no other attribute than the two hashes changes, so the window still equals itself |
| Extractor.MergeAppendsIff | mac-ax/macapptree/macapptree/extractor.py:37-55 | the root is appended exactly when there is no parent window, or an equal one without a child of the root's identity |
| Extractor.MergeRehashes | mac-ax/macapptree/macapptree/extractor.py:51-55 | after an append the window's hashes are those of its new contents |
| Extractor.MergeIdempotent | mac-ax/macapptree/macapptree/extractor.py:42-52 | with an equal parent window, merging the same root twice leaves one copy |
| Extractor.MergeWithoutParentRepeats | mac-ax/macapptree/macapptree/extractor.py:53-55 | without a parent window each merge appends the root again |
| Extractor.MergeOtherWindowKeeps | mac-ax/macapptree/macapptree/extractor.py:42 | a parent window that differs leaves the window unchanged |
| Extractor.HitTestOutcome | mac-ax/macapptree/macapptree/extractor.py:21-55 | no hit gives False; a window without position or no fuel fails; a merged window still equals the original |
| Extractor.StoreData | mac-at/macapptree/macapptree/files.py:5-10 | nothing without an output file; otherwise that path and a dictionary with the thirteen keys |
| Extractor.NoRootAppends | mac-ax/macapptree/macapptree/extractor.py:32-55 | when the parent chain has no window-like element, an attribute-less "No role" element without position or children is appended |
| Extractor.MergeIntoWindow | mac-ax/macapptree/macapptree/extractor.py:37-55 | the twin scan, append and rehash leave the window as the merge specifies |
| Extractor.ExtractWithHitTest | mac-ax/macapptree/macapptree/extractor.py:21-63 | failures and no hit leave the window unchanged; otherwise the window is the merged one, True is returned and its dictionary is written |
| Extractor.ExtractWindow | mac-ax/macapptree/macapptree/extractor.py:68-80 | no window gives False; without the hit test the window is stored unchanged and True returned; with it, as `extract_with_hit_test` |
| ScreenshotAppWindow.EntryOf | mac-at/macapptree/macapptree/screenshot_app_window.py:43-53 | a tuple exactly when the bounds have all four keys, with "" for a missing owner or name |
| ScreenshotAppWindow.IdsFromInfoSucceeds | mac-at/macapptree/macapptree/screenshot_app_window.py:38-54 | the list is built exactly when every window has readable bounds |
| ScreenshotAppWindow.IdsFromInfoValue | mac-at/macapptree/macapptree/screenshot_app_window.py:38-54 | one tuple per window, in order |
| ScreenshotAppWindow.IdsFromInfoError | mac-at/macapptree/macapptree/screenshot_app_window.py:42-53 | the error is that of the first window whose bounds cannot be read |
| ScreenshotAppWindow.GenIdsFromInfo | mac-at/macapptree/macapptree/screenshot_app_window.py:38-54 | the loop computes the tuple list, stopping at the first error |
| ScreenshotAppWindow.FailureExtends | mac-at/macapptree/macapptree/screenshot_app_window.py:42-53 | an error on a prefix of the windows is the error of the whole list |
| ScreenshotAppWindow.SelectedAppend | mac-at/macapptree/macapptree/screenshot_app_window.py:64-70 | selection commutes with concatenation, so the windows keep their order |
| ScreenshotAppWindow.SelectedExactly | mac-at/macapptree/macapptree/screenshot_app_window.py:64-70 | every window returned comes from a kept window and every kept window is returned |
| ScreenshotAppWindow.StatusBarOnlyFromItself | mac-at/macapptree/macapptree/screenshot_app_window.py:66-69 | replacing spaces cannot turn another name into "Item-0" |
| ScreenshotAppWindow.SelectedNames | mac-at/macapptree/macapptree/screenshot_app_window.py:66-69 | no returned name contains a space or is "Item-0" |
| ScreenshotAppWindow.GenWindowIds | mac-at/macapptree/macapptree/screenshot_app_window.py:57-72 | the loop keeps the windows owned by the application, ignoring case, minus the status bar |
| ScreenshotAppWindow.FirstExact | mac-at/macapptree/macapptree/screenshot_app_window.py:147-151 | the first window the first pass accepts, none before it |
| ScreenshotAppWindow.FirstPrefix | mac-at/macapptree/macapptree/screenshot_app_window.py:154-158 | the first window the second pass accepts, none before it |
| ScreenshotAppWindow.FindInSpec | mac-at/macapptree/macapptree/screenshot_app_window.py:144-160 | a named request fails exactly when no window passes either test, with WindowNotFound; otherwise the first exact match, else the first prefix match |
| ScreenshotAppWindow.FindUnnamed | mac-at/macapptree/macapptree/screenshot_app_window.py:139-142 | no window name gives the first window, decoded; an empty list is an error |
| ScreenshotAppWindow.FindFirstForAppOrEmpty | mac-at/macapptree/macapptree/screenshot_app_window.py:150-151 | an empty request, or one decoding to the application name, gives the first window |
| ScreenshotAppWindow.EmptyNameAlwaysFound | mac-at/macapptree/macapptree/screenshot_app_window.py:154-158 | a window whose name decodes to "" makes every named request succeed |
| ScreenshotAppWindow.FindReturnsListed | mac-at/macapptree/macapptree/screenshot_app_window.py:139-158 | the window found is one of the application's, with its decoded name |
| ScreenshotAppWindow.FindWindow | mac-at/macapptree/macapptree/screenshot_app_window.py:133-160 | the two early-return scans compute the specified lookup |
| ScreenshotAppWindow.FindWindowOwned | mac-at/macapptree/macapptree/screenshot_app_window.py:57-72 | the window found comes from a window dictionary owned by the application that is not the status bar |

## Left out

- The native accessibility calls (`CFAttributeToPyObject`, `element_attribute`, `element_value`, `element_attribute_names`) are the `Provider` map. The 999-children window of `AXUIElementCopyAttributeValues` is not modelled.
- Coordinates are integers. The center is kept doubled, so no halving is needed. The float formats `:.2f` and `:.0f` are modelled as integer text. `self.center` is not exported.
- `print_node`, and the printing in `extract_with_hit_test`, `gen_window_ids` and `gen_windows`, are console output.
- `recursive_children` is left out: it queries the native API again for childless nodes.
- `store_screen_scaling_factor`, `convert_point_to_window`, `hit_test`, `segment_window_components`, `get_window_info`, `take_screenshot`, `get_filename`, `crop_screenshot`, `running_app` and the `screenshot_*` wrappers are left out. They use screens, files, subprocesses, the clock or images. The hit test's answer and the window list are parameters; the screen scale is an integer parameter.
- `segment_image`: opening and saving the image are not modelled. A drawing error is modelled as not happening, so every rectangle is appended.
- The mac-ax `files.py` is not part of this model. `store_data_to_file` follows the mac-at copy. Writing the file is the (path, dictionary) pair returned; the JSON text and its indentation are not modelled.
- md5 and `unidecode` are parameters. md5 is assumed only to give 32 hex digits.
- Strings.Lower: handles ASCII letters only; Python's `str.lower` folds all of Unicode.
- TreeBuilder.FindRootElement: has no cycle guard; a cyclic parent chain runs out of fuel, as the interpreter's recursion limit would stop it.
- The recursion limit is a fuel count, not Python's frame count.
- WindowTools.UnmappedIsRed: states one direction only. That no mapped role is red is shown by `WindowTools.ColorExamples` for particular roles only. For every mapped role it needs a case split over the 46 tested roles, and each case re-evaluates the chain of string comparisons; that proof is too costly for the solver to finish reliably within its resource bound.
- WindowTools.SegmentImage: takes the colour function as a parameter, and `SegmentWindow` passes `ColorForRole`.
- Serializer.DecodeToDict: `to_dict` cannot tell a date from the plain string of its text, nor no value from a plain `null`, so the reader maps both to the plain form (`DateLooksLikeString`, `NoValueLooksLikeNull`). The round trip is proved for trees whose plain values are not themselves dumped documents.
- Nothing is proved about the content identifier's sensitivity to the order of child identifiers: with md5 uninterpreted, two orders may collide.
- `content_hash` is modelled (`Hashing.ContentHash`) even though nothing calls it.
- The AXVisibleChildren fallback of `children()` is modelled, but `_get_children_and_actions` calls `children()` only when AXChildren is non-empty, so the fallback never takes effect in a built tree.
- An AXWindow whose `start_position` is None raises before `self.position` is set; this is the `NoWindowPosition` failure.
- `extract_with_hit_test` on a window without a position raises an attribute error; the model reports it as `NoWindowPosition` too.
- The window dictionary's bounds are modelled as integers; Quartz reports floats.
- A window number missing from its dictionary becomes "" in the source; here it is `NoNumber`.
