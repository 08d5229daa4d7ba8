# PdfSignableBundle: a Dafny model of the AcroForm patch pipeline and its helpers

PdfSignableBundle is a Symfony bundle. It has two parts:

- a form type that lets a user place named signature boxes on the pages of a PDF;
- an AcroForm editor that lets a user change a PDF's interactive form fields (section 12.7 of
  ISO 32000-1): their label, type, rectangle, default value, options and font.

Two Python scripts do the PDF work. `scripts/extract_acroform_fields.py` lists a document's
widget annotations as field descriptors. `scripts/apply_acroform_patches.py` applies the
editor's patches to the document's widgets, hides some of them, and creates new ones.

This project models that pipeline and the small, exact helpers around it, and proves what they
guarantee. One Dafny module stands for each source file:

| module | file | models |
|---|---|---|
| `Pdf` | `pdf.dfy` | the part of a PDF the scripts touch: indirect dictionaries, each page's /Annots, the catalog's /AcroForm with /Fields and /NeedAppearances; inheritance through /Parent |
| `AcroFormExtract`, `DaFontSize` | `extract.dfy`, `extract_fontsize.dfy` | `extract_fields` (filtering, per-pass identifiers, inherited keys) and `parse_font_size_from_da` |
| `AcroFormPatchRules` | `apply_rules.dfy` | `_patch_field_type`, `_pdf_font_name`, `_build_da_string` |
| `AcroFormPatchIndex` | `apply_index.dfy` | the positional and name lookup tables built from the patch list |
| `AcroFormPatchWidget` | `apply_widget.dfy` | the writes made to one matched widget and its parent field, in the script's order |
| `AcroFormApply` | `apply.dfy` | `apply_patches` as functions (`ApplySpec`) and as the class `PdfWriter`, whose methods change the document in place and are proved equal to the functions |
| `AcroFormApplyProperties`, `AcroFormApplyCreateProperties` | `apply_properties.dfy`, `apply_create_properties.dfy` | what the page pass, the create pass and the whole run guarantee |
| `AcroFormFieldPatch`, `AcroFormOverrides`, `AcroFormFieldEdit` | `field_patch.dfy`, `overrides.dfy`, `field_edit.dfy` | the patch, overrides and field-edit data classes: `fromArray`, `toArray` and their round trips |
| `AcroFormOverridesController` | `overrides_controller.dfy` | document-key checks, the load endpoint's PDF lookup, extraction step and merge, save normalisation, and the apply endpoint's patch validation, PDF resolution and response precedence |
| `AcroFormApplyEvent` | `apply_event.dfy` | the apply request event, a class with setters and `hasResponse` |
| `SessionOverridesStorage` | `session_storage.dfy` | the session-backed overrides store, a class over a map |
| `ProxyUrlValidator` | `proxy_url.dfy` | the SSRF guard (host rules, IPv4 ranges) and the allowlist |
| `SignatureType`, `SignatureOverlap` | `signature_type.dfy`, `signature_overlap.dfy` | `boxesOverlap`, the sort comparator, the unique-name and overlap checks, `boxFromArray`, `mergeNamedConfig`, the unit choices |
| `SignatureCoordinatesModel` | `coordinates_model.dfy` | the signature-coordinates model, a class with setters, `toArray` and `fromArray` |
| `Coordinates`, `BoxDrag`, `MoveResize` | `coordinates.dfy`, `box_drag.dfy`, `move_resize.dfy` | the editor's origin transforms, its overlap test, and the pixel-to-PDF rectangle conversion with move/resize clamping |
| `SignableUtils`, `AcroFormStrings`, `EditorConfig` | `signable_utils.dfy`, `acroform_strings.dfy`, `editor_config.dfy` | unit conversion, the HTML and attribute escapers, the editor's string table and its data-attribute configuration |
| `PythonProcessEnv`, `DemoMenu` | `python_env.dfy`, `demo_menu.dfy` | the environment handed to the Python subprocesses, and the demo menu's prev/next |
| `Wrappers`, `Text`, `Values` | `wrappers.dfy`, `text.dfy`, `values.dfy` | Option and Result; string operations of Python, PHP and TypeScript; decoded JSON/PHP/Python data |

Numbers are exact reals and integers. Foreign behaviour the model does not write out is passed
in as a record of functions:

- `PyRuntime`: Python `str()` of non-strings, `float()` of strings and the `.1f` format;
- `ExtractRuntime`: `str()` of PDF objects and `float()` in the extractor;
- `PhpRuntime`: PHP's float-to-string and string-to-number casts;
- `UrlRuntime`: `parse_url`, `filter_var` for IPv6, `gethostbyname` and `preg_match`;
- `JSON.parse`: a parameter of the editor configuration;
- `PdfRuntime`: URL validation, the proxy download, base64 decoding and `trans()` for the controller's PDF step;
- `ExtractorConfig`: whether the extractor script is configured, and what running it on a PDF gives.

Uncaught Python exceptions are `Failure` values carrying the exception's name. Exceptions the
script catches are modelled as the branch its handler takes.

Where the code and the bundle's documentation disagree, the model follows the code:

- The `controlType` table of `_patch_field_type` has no signature entry, so /Sig comes only
  from `fieldType` (`AcroFormPatchRules.SigOnlyFromFieldType`).
- A fresh `AcroFormFieldEdit` has `null` options. The field-edit test expects `''`
  (tests/AcroForm/AcroFormFieldEditTest.php:22).
- `isValidDocumentKey` accepts a key with one trailing newline, because PCRE's `$` matches
  before a final newline (`AcroFormOverridesController.KeyWithTrailingNewline`). Every caller
  trims the key first, so no request reaches this case.

The functions that define an operation carry no contract of their own. The rows of the table
name the lemmas and methods that state their properties:

- `AcroFormApply.ApplySpec` (`apply_patches`): `PdfWriter.ApplyPatches`, `ApplyKeepsWellFormed`, `ApplyCounts`, `ApplyNoPatches`, `ApplyFailsOnNonDictPatch`, and the Findings lemmas of `AcroFormApplyCreateProperties`;
- `Creates`, `CreateStep`, `CreateFor`, `CreateNamed`, `CreateOnPage`, `AddWidget`, `AddWidgetAsWritten`, `CreateQualifies`, `CreateQualifiesAsWritten`, `Hides` (the create loop): `CreatesNext`, `PdfWriter.CreateLoop`, `PdfWriter.CreateLoopStep`, `CreateStepSkips`, `CreateStepFailure`, `CreateStepCreates`, `CreateStepGrows`, `CreatesCountWidgets`, `RegisterEffect`, `AddWidgetAsWrittenWithForm`;
- `FinderFor`, `IndexFinder`, `ScriptFinder`, `LookupAsWritten`, `WidgetPatcher`, `WidgetMaker` (the page pass): `FindPatch`, `FindPatchAsWritten`, `LookupName`, `FinderForNameBased`, `PositionalIdFindsItsEntry`, `NamedIdFindsItsEntry`, `PaddedNameMissedAsWritten`, `WidgetPatcherKeepsNames`, `PdfWriter.PatchPages`;
- `AcroFormPatchIndex.BuildIndex`, `IndexPatch`, `PatchId`: `BuildIndexFailsAt`, `BuildIndexError`, `IndexedUnderItsKeys`, `NoIdNotIndexed`, `SinglePatchIndex`;
- `AcroFormExtract.ExtractSpec`, `Describe`, `StrVal`, `AssignIdAsWritten` (`extract_fields`): `ExtractFields`, `ExtractDescribesEntries`, `ExtractIdsUnique`, `ExtractIdsUniqueAsWritten`, `ExtractIdRepeats`, `DescribeFacts`, `NameSubtypeDescribed`, `NameSubtypesExtractNothing`, `ChooseId`;
- `AcroFormPatchRules.BuildDaString`, `FontForName`: `DaStringSizeRoundTrip`, `PdfFontName`;
- `SignableUtils.EscapeHtml`, `UnescapeHtml`, `PtToUnit`, `UnitToPt`: `UnescapeEscapeHtml`, `EscapeHtmlHasNoRawSpecials`, `UnitToPtOfPtToUnit`, `PtToUnitOfUnitToPt`;
- `BoxDrag.BoxesOverlap`, `SignatureType.BoxesOverlap`: `BoxesOverlapIffCommonPoint`, `BoxesOverlapSymmetric`, `BoxesOverlapAgreesWithEditor`;
- `Coordinates.FormToViewport`, `ViewportToForm`, `PdfToFormCoords`, `MoveResize.OnMove`, `DemoMenu.Prev`, `DemoMenu.Next`: `ViewportToFormOfFormToViewport`, `PdfToFormCoordsInvolution`, `MoveKeepsSize`, `ResizeStaysInViewport`, `PrevOfNext`, `NextOfPrev`;
- `ProxyUrlValidator.IsBlockedForSsrf`, `IsAllowedByAllowlist`: `DottedHostBlockedIff`, `HostRules`, `AllowedIff`, and the controller's `PdfUrlForbiddenIff`;
- `AcroFormOverridesController.IsValidDocumentKey`, `LoadMerge`, `ApplyResponse`, `ParsePatches`: `ValidTrimmedKey`, `MergeOverrides`, `StoredKeysWin`, `Respond`, `NotImplementedIff`, `ParsedIffAllBuild`, `RejectionNamesThePatch`.

## Model

| member | source | states |
|---|---|---|
| PythonProcessEnv.NewPath | src/AcroForm/PythonProcessEnv.php:38 | the new `PATH` always starts with `/usr/local/bin:/usr/bin:/bin`; it is followed by `:` and the old `PATH` exactly when the old one was set and non-empty, and is the system directories alone otherwise |
| PythonProcessEnv.Build | src/AcroForm/PythonProcessEnv.php:25-41 | when `getenv()` gives no array the result is empty; otherwise none of the five Python variables is left, `PATH` is the new path, every other variable keeps its value, and nothing else is added |
| PythonProcessEnv.OldPathIsKept | src/AcroForm/PythonProcessEnv.php:38 | a non-empty old `PATH` can be read back from the end of the new one, after the system directories and the `:` |
| DemoMenu.AppendItems | demo/symfony7/src/Service/DemoMenu.php:88-90 | the inner loop leaves the list followed by the group's items, in order |
| DemoMenu.Flat | demo/symfony7/src/Service/DemoMenu.php:84-93 | `flat` is the in-order concatenation of every group's items |
| DemoMenu.ConcatHoldsEveryItem | demo/symfony7/src/Service/DemoMenu.php:84-93 | item j of group i sits in the flat list at the offset of the groups before it plus j |
| DemoMenu.ConcatAppend | demo/symfony7/src/Service/DemoMenu.php:84-93 | flattening two menus one after the other is the concatenation of the two flat lists |
| DemoMenu.FirstIndex | demo/symfony7/src/Service/DemoMenu.php:103-109 | the index the search stops at: none exactly when no item has the route, otherwise an item with the route and no earlier item with it |
| DemoMenu.PrevNext | demo/symfony7/src/Service/DemoMenu.php:100-113 | the loop finds the first item with the route and returns its neighbours, as `Prev` and `Next` of the flat menu state them |
| DemoMenu.FirstIndexIsFirst | demo/symfony7/src/Service/DemoMenu.php:104-108 | any position holding the route with no earlier one is the index the search reports |
| DemoMenu.PrevOfNext | demo/symfony7/src/Service/DemoMenu.php:110-111 | with distinct routes, the previous demo of a page's next demo is the page itself |
| DemoMenu.NextOfPrev | demo/symfony7/src/Service/DemoMenu.php:110-111 | with distinct routes, the next demo of a page's previous demo is the page itself |
| DemoMenu.Ends | demo/symfony7/src/Service/DemoMenu.php:110-111 | the first demo has no previous one, the last (routes distinct) has no next one, and a route not on the menu has neither |
| DemoMenu.RepeatedRouteUsesFirst | demo/symfony7/src/Service/DemoMenu.php:104-108 | a repeated route is judged by its first occurrence only |
| SignatureCoordinatesModel.SignatureCoordinates.constructor | src/Model/SignatureCoordinatesModel.php:35-56 | a new model has no URL, unit `mm`, origin `bottom_left`, no boxes, no consent and empty audit metadata |
| SignatureCoordinatesModel.SignatureCoordinates.SetPdfUrl | src/Model/SignatureCoordinatesModel.php:75-80 | only the URL changes, to the value given |
| SignatureCoordinatesModel.SignatureCoordinates.SetUnit | src/Model/SignatureCoordinatesModel.php:99-104 | only the unit changes, to the value given |
| SignatureCoordinatesModel.SignatureCoordinates.SetOrigin | src/Model/SignatureCoordinatesModel.php:123-128 | only the origin changes, to the value given |
| SignatureCoordinatesModel.SignatureCoordinates.SetSignatureBoxes | src/Model/SignatureCoordinatesModel.php:147-152 | the box list is replaced wholesale and nothing else changes |
| SignatureCoordinatesModel.SignatureCoordinates.AddSignatureBox | src/Model/SignatureCoordinatesModel.php:161-166 | exactly one box is appended at the end and nothing else changes |
| SignatureCoordinatesModel.SignatureCoordinates.SetSigningConsent | src/Model/SignatureCoordinatesModel.php:185-190 | only the consent flag changes, to the value given |
| SignatureCoordinatesModel.SignatureCoordinates.SetAuditMetadata | src/Model/SignatureCoordinatesModel.php:209-214 | only the audit metadata changes, to the value given |
| SignatureCoordinatesModel.SignatureCoordinates.ToArray | src/Model/SignatureCoordinatesModel.php:221-237 | the array built step by step is the export of the model's current state |
| SignatureCoordinatesModel.Exported | src/Model/SignatureCoordinatesModel.php:221-237 | the export always has the four fixed keys; it has `signing_consent` exactly when consent is true, with value true, and `audit_metadata` exactly when the metadata is not empty |
| SignatureCoordinatesModel.FromArray | src/Model/SignatureCoordinatesModel.php:246-264 | the setter calls and the box loop give a fresh model whose state is the one `Imported` describes, or the strict-types TypeError for a `pdf_url` that is neither a string nor null |
| SignatureCoordinatesModel.ImportDefaults | src/Model/SignatureCoordinatesModel.php:249-258 | missing keys give no URL, unit `mm`, origin `bottom_left` and no consent |
| SignatureCoordinatesModel.BoxesOfArrays | src/Model/SignatureCoordinatesModel.php:252-257 | the loop never gives more boxes than entries, and when every entry is an array it gives one box per entry, in order |
| SignatureCoordinatesModel.ExportedEntries | src/Model/SignatureCoordinatesModel.php:221-237 | each key of the export carries the matching field: URL or null, unit, origin, the exported boxes, consent (present only when true) and metadata (present only when not empty) |
| SignatureCoordinatesModel.ImportedBoxesOfExported | src/Model/SignatureCoordinatesModel.php:227-257 | when the box model's own `fromArray` inverts its `toArray`, re-importing the exported boxes gives the same boxes |
| SignatureCoordinatesModel.ImportOfExported | src/Model/SignatureCoordinatesModel.php:221-264 | `fromArray(toArray())` gives back the same model, under the same assumption about boxes |
| AcroFormFieldEdit.FieldEdit.constructor | src/AcroForm/AcroFormFieldEdit.php:16-42 | the constructor stores each argument; omitted arguments take the declared defaults (control type `text`, font family `sans-serif`, checkbox values `1`/`0`, icon `check`, flags false, nullable fields null) |
| AcroFormFieldEdit.NewDefault | src/AcroForm/AcroFormFieldEdit.php:16-42 | a default-constructed edit holds exactly the declared defaults |
| AcroFormFieldEdit.OptionsText | src/AcroForm/AcroFormFieldEdit.php:58-69 | the `foreach` over the options and the `implode` give the option lines joined with newlines |
| AcroFormFieldEdit.OptionLinesAppend | src/AcroForm/AcroFormFieldEdit.php:60-67 | the lines of two option lists one after the other are the lines of each, concatenated |
| AcroFormFieldEdit.OptionLinesPrefix | src/AcroForm/AcroFormFieldEdit.php:60-67 | the lines of a prefix of the options do not depend on what follows |
| AcroFormFieldEdit.OptionLinesOfStrings | src/AcroForm/AcroFormFieldEdit.php:60-67 | there are never more lines than options, and a list of strings gives each string as its own line, in order |
| AcroFormFieldEdit.OptionLineOfPair | src/AcroForm/AcroFormFieldEdit.php:62-63 | a `{value, label}` entry becomes `value|label` when the label differs from the value, and just the value otherwise |
| AcroFormFieldEdit.OptionsTextSplits | src/AcroForm/AcroFormFieldEdit.php:68 | when no line holds a newline, splitting the options text at newlines gives back the lines |
| AcroFormFieldEdit.PairLineSplits | src/AcroForm/AcroFormFieldEdit.php:63 | for a value without `|`, splitting a `value|label` line at its first `|` gives back the value and the label |
| AcroFormFieldEdit.FromArray | src/AcroForm/AcroFormFieldEdit.php:49-91 | the new edit holds the fields `FromArrayData` reads from the array |
| AcroFormFieldEdit.CamelBeforeSnake | src/AcroForm/AcroFormFieldEdit.php:72-79 | a set camelCase key wins, then the snake_case key, then the default |
| AcroFormFieldEdit.RectPresence | src/AcroForm/AcroFormFieldEdit.php:51-76 | `rect` is empty exactly when the input has no array `rect` with at least 4 entries |
| AcroFormFieldEdit.RectOfList | src/AcroForm/AcroFormFieldEdit.php:55 | a list of 4 or more numbers gives the first four, each formatted with one decimal, joined by `, ` |
| AcroFormFieldEdit.OptionsDefault | src/AcroForm/AcroFormFieldEdit.php:58-59 | options that are missing or not an array give the empty text |
| AcroFormFieldEdit.SnakeCaseKeysRead | src/AcroForm/AcroFormFieldEdit.php:71-91 | without the camelCase keys, id, control type, name and default value come from the snake_case keys, with their defaults when those are unset too, and the page is absent exactly when unset |
| ProxyUrlValidator.Octet | src/Proxy/ProxyUrlValidator.php:71 | a dotted-quad part that IPv4 validation accepts has a value of at most 255 |
| ProxyUrlValidator.ParseIpv4 | src/Proxy/ProxyUrlValidator.php:64-71 | an accepted IPv4 host has exactly four octets, each at most 255 |
| ProxyUrlValidator.BlockedRangeIsPrivate | src/Proxy/ProxyUrlValidator.php:72-81 | the four integer ranges are exactly 127.0.0.0/8, 10.0.0.0/8, 192.168.0.0/16 and 169.254.0.0/16 (loopback, section 3 of RFC 1918 without 172.16/12, and RFC 3927 link-local) |
| ProxyUrlValidator.Private172IsNotBlocked | src/Proxy/ProxyUrlValidator.php:78-81 | an address in 172.16.0.0/12 is not in any blocked range |
| ProxyUrlValidator.OctetOfDecimal | src/Proxy/ProxyUrlValidator.php:71 | the decimal form of a number up to 255 is accepted as that octet |
| ProxyUrlValidator.ParseIpv4OfDotted | src/Proxy/ProxyUrlValidator.php:64-71 | parsing the dotted form of four octets gives them back |
| ProxyUrlValidator.ParseIpv4OfParts | src/Proxy/ProxyUrlValidator.php:71 | a host that splits at dots into four accepted parts parses to their values |
| ProxyUrlValidator.DottedPieces | src/Proxy/ProxyUrlValidator.php:71 | the dotted form is the four decimals with a dot between each |
| ProxyUrlValidator.DottedHostBlockedIff | src/Proxy/ProxyUrlValidator.php:49-82 | a URL whose host is a dotted IPv4 address is blocked exactly when the address lies in one of the four private networks |
| ProxyUrlValidator.DottedIsPlainHost | src/Proxy/ProxyUrlValidator.php:52-62 | a dotted address passes the host-name rules unchanged: it is not empty, has no brackets and is not a local name |
| ProxyUrlValidator.HostRules | src/Proxy/ProxyUrlValidator.php:51-62 | a missing or empty host, a host empty after stripping `[]`, `localhost`, `::1` and any host starting with `fe80:` are blocked |
| ProxyUrlValidator.UnresolvedNameIsNotBlocked | src/Proxy/ProxyUrlValidator.php:63-68 | a host name that is not an IP and does not resolve is not blocked |
| ProxyUrlValidator.ResolvedNameIsJudgedByAddress | src/Proxy/ProxyUrlValidator.php:63-87 | a host name that resolves is judged by the address it resolves to |
| ProxyUrlValidator.ScanFromIff | src/Proxy/ProxyUrlValidator.php:97-119 | the scan from entry i on allows the URL exactly when the list is empty or some later entry admits it |
| ProxyUrlValidator.AllowedIff | src/Proxy/ProxyUrlValidator.php:95-120 | the URL is allowed exactly when the allowlist is empty or some entry admits it (non-empty; by regex for `#` entries, as a substring otherwise) |
| ProxyUrlValidator.EmptyEntriesReject | src/Proxy/ProxyUrlValidator.php:98-119 | a non-empty allowlist whose entries are all empty rejects every URL |
| ProxyUrlValidator.RegexEntryHasNoSubstringFallback | src/Proxy/ProxyUrlValidator.php:101-113 | a `#` entry whose regex does not match rejects the URL even when the entry is a substring of it |
| AcroFormOverrides.FromArray | src/AcroForm/AcroFormOverrides.php:31-47 | `overrides` is kept only when it is an array and is `[]` otherwise; an unset or empty `document_key` becomes null and any other is kept as its string; `fields` is kept only when it is an array and is null otherwise |
| AcroFormOverrides.ToArray | src/AcroForm/AcroFormOverrides.php:52-63 | the array built key by key is the export `Exported` describes |
| AcroFormOverrides.ExportedKeys | src/AcroForm/AcroFormOverrides.php:52-63 | the export always has `overrides`; it has `document_key` exactly when the key is not null and `fields` exactly when the list is neither null nor empty, each with the DTO's value, and no other key |
| AcroFormOverrides.FromArrayOfExported | src/AcroForm/AcroFormOverrides.php:31-63 | `fromArray(toArray(o))` gives back `o` with an empty key and an empty field list turned into null, and so gives back `o` itself when it has neither |
| AcroFormOverrides.ExportedOfFromArray | src/AcroForm/AcroFormOverrides.php:31-63 | `toArray(fromArray(d))` reproduces every array already in the shape `toArray` writes |
| SessionOverridesStorage.SanitizeKey | src/AcroForm/Storage/SessionAcroFormOverridesStorage.php:72-75 | the result has one character per UTF-8 byte of the key, and every character is in `[a-zA-Z0-9_.-]` |
| SessionOverridesStorage.SanitizeKeyOfKeyChars | src/AcroForm/Storage/SessionAcroFormOverridesStorage.php:74 | a key made only of allowed characters is left unchanged |
| SessionOverridesStorage.SanitizeKeyIdempotent | src/AcroForm/Storage/SessionAcroFormOverridesStorage.php:74 | sanitising twice is sanitising once |
| SessionOverridesStorage.SanitizeKeyOfAscii | src/AcroForm/Storage/SessionAcroFormOverridesStorage.php:74 | on ASCII keys the length is kept and each character outside the class becomes `_` in place |
| SessionOverridesStorage.SharedSanitisedKeys | src/AcroForm/Storage/SessionAcroFormOverridesStorage.php:74 | `a/b` and `a b` both become `a_b`, and `é` (two bytes) becomes `__` |
| SessionOverridesStorage.SlotsMeet | src/AcroForm/Storage/SessionAcroFormOverridesStorage.php:23-64 | two document keys use the same session slot exactly when they sanitise to the same string |
| SessionOverridesStorage.Read | src/AcroForm/Storage/SessionAcroFormOverridesStorage.php:33-46 | `get` finds overrides exactly when there is a session whose slot holds an array, and what it returns is a valid DTO |
| SessionOverridesStorage.SessionStorage.constructor | src/AcroForm/Storage/SessionAcroFormOverridesStorage.php:28-31 | the store starts on the given session, or none |
| SessionOverridesStorage.SessionStorage.Get | src/AcroForm/Storage/SessionAcroFormOverridesStorage.php:33-46 | `get` returns what `Read` says of the current session |
| SessionOverridesStorage.SessionStorage.Set | src/AcroForm/Storage/SessionAcroFormOverridesStorage.php:48-56 | without a session nothing happens; otherwise only the key's slot changes, to the overrides' `toArray` |
| SessionOverridesStorage.SessionStorage.Remove | src/AcroForm/Storage/SessionAcroFormOverridesStorage.php:58-65 | without a session nothing happens; otherwise only the key's slot is removed |
| SessionOverridesStorage.ReadAfterSet | src/AcroForm/Storage/SessionAcroFormOverridesStorage.php:33-56 | `get` after `set` returns the overrides that were set, read back through `fromArray(toArray())` |
| SessionOverridesStorage.ReadAfterRemove | src/AcroForm/Storage/SessionAcroFormOverridesStorage.php:33-65 | `get` after `remove` of the same key returns null |
| SessionOverridesStorage.ReadOtherKey | src/AcroForm/Storage/SessionAcroFormOverridesStorage.php:39-54 | a write under a key that sanitises like the read key is seen by the read, and a write under any other key is not |
| SessionOverridesStorage.SetThenGet | tests/AcroForm/Storage/SessionAcroFormOverridesStorageTest.php:74-92 | on a store with a session, `set` then `get` returns the stored overrides |
| SessionOverridesStorage.WithoutSession | src/AcroForm/Storage/SessionAcroFormOverridesStorage.php:35-62 | without a session `set`, `get` and `remove` change nothing and `get` returns null |
| AcroFormApplyEvent.ApplyRequestEvent.constructor | src/Event/AcroFormApplyRequestEvent.php:20-42 | the event keeps the PDF contents, the patches and the validate-only flag as given, starts with every response slot null, and has no response |
| AcroFormApplyEvent.ApplyRequestEvent.SetModifiedPdf | src/Event/AcroFormApplyRequestEvent.php:63-142 | only the modified PDF changes, to the bytes given, and the event then has a response |
| AcroFormApplyEvent.ApplyRequestEvent.SetError | src/Event/AcroFormApplyRequestEvent.php:79-142 | only the error changes, and the event then has a response |
| AcroFormApplyEvent.ApplyRequestEvent.SetErrorDetail | src/Event/AcroFormApplyRequestEvent.php:95-142 | only the error detail changes, and whether the event has a response does not |
| AcroFormApplyEvent.ApplyRequestEvent.SetValidationResult | src/Event/AcroFormApplyRequestEvent.php:121-142 | only the validation result changes, to the array given, and the event then has a response |
| AcroFormApplyEvent.DetailThenError | src/Event/AcroFormApplyRequestEvent.php:79-142 | a fresh event with only an error detail has no response, and a later error gives it one while keeping the detail |
| AcroFormFieldPatch.StringField | src/AcroForm/AcroFormFieldPatch.php:69-79 | a set camelCase key gives its string, else a set snake_case key gives its string, and the field is null exactly when neither is set |
| AcroFormFieldPatch.ArrayField | src/AcroForm/AcroFormFieldPatch.php:68-73 | `rect` and `options` are kept exactly when they are arrays, and then unchanged; otherwise they are null |
| AcroFormFieldPatch.FromArray | src/AcroForm/AcroFormFieldPatch.php:59-81 | an empty `fieldId ?? field_id` is refused with "fieldId is required."; a patch is built exactly when that id is a non-empty string, and it carries that id, the array-only `rect` and `options` and the camel-before-snake strings |
| AcroFormFieldPatch.EmptyCamelIdWins | src/AcroForm/AcroFormFieldPatch.php:61-64 | an explicit empty `fieldId` is refused even when `field_id` is present |
| AcroFormFieldPatch.MissingIdIsRefused | src/AcroForm/AcroFormFieldPatch.php:61-64 | an array with neither id key is refused |
| AcroFormFieldPatch.SnakeIdIsAccepted | src/AcroForm/AcroFormFieldPatch.php:61 | a non-empty `field_id` alone is accepted as the id |
| AcroFormFieldPatch.KeyOf | src/AcroForm/AcroFormFieldPatch.php:92-128 | a string recognised as one of the thirteen exported keys is that key's name |
| AcroFormFieldPatch.KeyOfName | src/AcroForm/AcroFormFieldPatch.php:92-128 | every exported key is recognised from its name |
| AcroFormFieldPatch.NameInjective | src/AcroForm/AcroFormFieldPatch.php:92-128 | no two exported keys share a name |
| AcroFormFieldPatch.Index | src/AcroForm/AcroFormFieldPatch.php:92-128 | every key has a position among the thirteen assignments of `toArray`, and that position holds the key |
| AcroFormFieldPatch.ExportedIsWritten | src/AcroForm/AcroFormFieldPatch.php:90-131 | the exported array is what the thirteen assignments write in order |
| AcroFormFieldPatch.ThroughHiddenIsWritten | src/AcroForm/AcroFormFieldPatch.php:92-116 | the first nine assignments, through `hidden`, write what the staged export says |
| AcroFormFieldPatch.ThroughLabelIsWritten | src/AcroForm/AcroFormFieldPatch.php:92-104 | the first five assignments, through `label`, write what the staged export says |
| AcroFormFieldPatch.PutIfSet | src/AcroForm/AcroFormFieldPatch.php:93-95 | one conditional assignment adds the key exactly when the value is not null |
| AcroFormFieldPatch.ToArray | src/AcroForm/AcroFormFieldPatch.php:90-131 | the array built step by step is the export the thirteen assignments describe |
| AcroFormFieldPatch.IndexOfKeyAt | src/AcroForm/AcroFormFieldPatch.php:92-128 | the position of the key at position i is i |
| AcroFormFieldPatch.WrittenMembers | src/AcroForm/AcroFormFieldPatch.php:92-128 | after the first n assignments a key is present exactly when it comes among the first n and its field is set, and it holds the field's value |
| AcroFormFieldPatch.WrittenNames | src/AcroForm/AcroFormFieldPatch.php:92-128 | the assignments write only the thirteen key names |
| AcroFormFieldPatch.ExportedMembers | src/AcroForm/AcroFormFieldPatch.php:90-131 | the export has exactly the keys whose field is set (`fieldId` always, `fontFamily` only when not empty), each with its value, and no other key |
| AcroFormFieldPatch.ExportedFieldIdAndFontFamily | src/AcroForm/AcroFormFieldPatch.php:92-128 | `fieldId` is always exported, and an empty `fontFamily` is not |
| AcroFormFieldPatch.FromArrayOfExported | src/AcroForm/AcroFormFieldPatch.php:59-131 | `fromArray(toArray(p))` gives back every patch with a non-empty id, array `rect` and `options` and no empty font family |
| AcroFormFieldPatch.FromArrayOfEntries | src/AcroForm/AcroFormFieldPatch.php:59-81 | any array holding exactly the entries of such a patch, under the camelCase names, reads back as that patch |
| AcroFormFieldPatch.FromArrayOfEntriesIds | src/AcroForm/AcroFormFieldPatch.php:61-75 | such an array reads back the id, rect, options, label, page and hidden flag |
| AcroFormFieldPatch.FromArrayOfEntriesTexts | src/AcroForm/AcroFormFieldPatch.php:69-72 | without snake_case keys, such an array reads back the default value, the field type and the control type |
| AcroFormFieldPatch.FromArrayOfEntriesFont | src/AcroForm/AcroFormFieldPatch.php:76-79 | without snake_case keys, such an array reads back the field name, max length, font size and font family |
| AcroFormFieldPatch.ExportedOfFromArray | src/AcroForm/AcroFormFieldPatch.php:59-131 | `toArray(fromArray(d))` reproduces every array that uses only camelCase keys, each with the type `toArray` writes (tests/AcroForm/AcroFormFieldPatchTest.php:35-60) |
| AcroFormFieldPatch.EntryOfFromArray | src/AcroForm/AcroFormFieldPatch.php:59-81 | reading such an array sets each field exactly from its key |
| AcroFormFieldPatch.CanonicalHasNoSnakeKeys | src/AcroForm/AcroFormFieldPatch.php:61-79 | an array that uses only the exported names has none of the snake_case spellings and a non-empty string id |
| AcroFormFieldPatch.NameIsNotSnake | src/AcroForm/AcroFormFieldPatch.php:92-128 | no exported key name is a snake_case spelling |
| AcroFormFieldPatch.EntryOfFitting | src/AcroForm/AcroFormFieldPatch.php:59-81 | an array without snake_case keys whose values have the exported types sets each field from its key |
| AcroFormOverridesController.ValidTrimmedKey | src/Controller/AcroFormOverridesController.php:701-708 | on a trimmed key, `isValidDocumentKey` holds exactly when the key is non-empty, at most 256 characters long and made only of `[a-zA-Z0-9_.-]` |
| AcroFormOverridesController.KeyWithTrailingNewline | src/Controller/AcroFormOverridesController.php:707 | the pattern without the `D` modifier also accepts a key with one trailing newline, which only an untrimmed key could show |
| AcroFormOverridesController.ResolveDocumentKey | src/Controller/AcroFormOverridesController.php:679-690 | a key is found exactly when the raw key (body, else query, else form) is not null and its trimmed string is valid; the key returned is that trimmed string and is well formed |
| AcroFormOverridesController.BodyKeyWins | src/Controller/AcroFormOverridesController.php:681-685 | a body that has `document_key`, even null, is used and the query string is not consulted |
| AcroFormOverridesController.SavedOverrides | src/Controller/AcroFormOverridesController.php:262-270 | the saved DTO is valid and carries the key being saved |
| AcroFormOverridesController.SavedLikeFromArray | src/Controller/AcroFormOverridesController.php:262-270 | `saveOverrides` coerces `overrides` and `fields` as `AcroFormOverrides::fromArray` does: non-array overrides become `[]` and non-array fields become null |
| AcroFormOverridesController.CoerceSaved | src/Controller/AcroFormOverridesController.php:262-270 | the coercion steps of `saveOverrides` build exactly `SavedOverrides` of the body and the key |
| AcroFormOverridesController.SaveOverrides | src/Controller/AcroFormOverridesController.php:251-274 | disabled gives 404 and an invalid key gives 400, neither touching the session; otherwise the overrides are stored under the key and echoed with status 200 |
| AcroFormOverridesController.GetOverrides | src/Controller/AcroFormOverridesController.php:117-132 | disabled gives 404, no valid key gives 400, nothing stored gives 404, and stored overrides are returned as their `toArray` |
| AcroFormOverridesController.RemoveOverrides | src/Controller/AcroFormOverridesController.php:351-363 | disabled gives 404 and no valid key gives 400, neither touching the session; otherwise the key's slot is removed and the answer is 204 |
| AcroFormOverridesController.ReadAfterSave | src/Controller/AcroFormOverridesController.php:270-271 | what `saveOverrides` stored reads back through the storage as the saved overrides |
| AcroFormOverridesController.FieldIdOf | src/Controller/AcroFormOverridesController.php:218 | only an array with an `id` entry has a non-empty id |
| AcroFormOverridesController.IndexById | src/Controller/AcroFormOverridesController.php:216-222 | the first merge loop builds the by-id table of the extracted fields |
| AcroFormOverridesController.ByIdKeys | src/Controller/AcroFormOverridesController.php:216-222 | an id is in the table exactly when it is non-empty and some extracted field has it |
| AcroFormOverridesController.ByIdLastWins | src/Controller/AcroFormOverridesController.php:219-220 | a field with a non-empty id that no later field repeats is the table's entry for that id |
| AcroFormOverridesController.MergeStoredLoop | src/Controller/AcroFormOverridesController.php:223-227 | the second loop gives one entry per stored override: `array_merge(base, stored)` for an array, the base alone otherwise |
| AcroFormOverridesController.WithExtractedStep | src/Controller/AcroFormOverridesController.php:229-233 | visiting one more extracted id adds its field exactly when no entry is there yet |
| AcroFormOverridesController.AddExtractedLoop | src/Controller/AcroFormOverridesController.php:229-233 | the third loop adds every extracted field that has no entry yet and keeps the others |
| AcroFormOverridesController.MergeOverrides | src/Controller/AcroFormOverridesController.php:215-235 | the three loops give the load merge of the stored overrides and the extracted fields |
| AcroFormOverridesController.LoadMergeKeys | src/Controller/AcroFormOverridesController.php:215-235 | the merge has exactly the stored ids and the non-empty ids of the extracted fields |
| AcroFormOverridesController.StoredKeysWin | src/Controller/AcroFormOverridesController.php:225-226 | in a merged entry a stored key wins over the extracted one, and an extracted key the stored override lacks is kept |
| AcroFormOverridesController.NonArrayStoredIsBase | src/Controller/AcroFormOverridesController.php:225-226 | a stored override that is not an array is replaced by the extracted field (or `[]`) |
| AcroFormOverridesController.UnstoredFieldIsLastExtracted | src/Controller/AcroFormOverridesController.php:229-233 | an extracted field without a stored override appears under its id, as the last field with that id |
| AcroFormOverridesController.LoadPdf | src/Controller/AcroFormOverridesController.php:630-667 | the load step's PDF lookup throws exactly as written for a non-empty, valid string `pdf_url`; a PDF found through the URL passed the allowlist and the SSRF guard and is the download; one found otherwise is the decoded `pdf_content` |
| AcroFormOverridesController.LoadPdfAgreesWithApply | src/Controller/AcroFormOverridesController.php:406-442 | the corrected lookup finds what apply's PDF step loads, and what it finds within the size limit apply loads too |
| AcroFormOverridesController.ExtractionOf | src/Controller/AcroFormOverridesController.php:164-207 | a non-empty request field list is used as is with no error; the step crashes exactly when there is no such list and the lookup throws; an extractor error comes only from a found PDF, a configured script and a failing run |
| AcroFormOverridesController.LoadCrashesAsWritten | src/Controller/AcroFormOverridesController.php:638 | with no request fields and a valid string `pdf_url`, the load step as written dies on the undefined allowlist method, and the corrected one does not |
| AcroFormOverridesController.WithExtractorError | src/Controller/AcroFormOverridesController.php:178-200 | the body gets `fields_extractor_error` exactly when the extractor failed (or it was there), with the extractor's message, and keeps every other key |
| AcroFormOverridesController.Extract | src/Controller/AcroFormOverridesController.php:164-207 | the imperative extraction block computes `ExtractionOf` |
| AcroFormOverridesController.LoadOverrides | src/Controller/AcroFormOverridesController.php:148-237 | disabled gives 404 and an invalid body key 400. Otherwise the answer follows the extraction step: an uncaught Error where the PDF lookup throws, else 200 with the stored overrides (or `[]`), the key, the request's or the extractor's field list and its merge, and `fields_extractor_error` when the extractor failed |
| AcroFormOverridesController.LoadBodyFor | src/Controller/AcroFormOverridesController.php:160-235 | the body built after the key check is the one `LoadBody` describes for what the session holds |
| AcroFormOverridesController.LoadBodyUpdates | src/Controller/AcroFormOverridesController.php:162-234 | writing `fields` and then `overrides` again gives the three-key body |
| AcroFormOverridesController.ReadPatches | src/Controller/AcroFormOverridesController.php:394-404 | the patch loop ends as `ParsePatches` says: the built patches, the first refusal, or an uncaught error |
| AcroFormOverridesController.RejectionIsFinal | src/Controller/AcroFormOverridesController.php:401-403 | once the loop has returned, later entries do not change the outcome |
| AcroFormOverridesController.StoppedStaysStopped | src/Controller/AcroFormOverridesController.php:401-403 | one more entry after a refusal keeps the refusal |
| AcroFormOverridesController.ParsedIffAllBuild | src/Controller/AcroFormOverridesController.php:395-404 | the list is accepted exactly when `fromArray` accepts every array entry; non-array entries play no part |
| AcroFormOverridesController.ParsedStep | src/Controller/AcroFormOverridesController.php:395-404 | the acceptance test carries over from n entries to n + 1 |
| AcroFormOverridesController.ParsedPatchesAreArrayEntries | src/Controller/AcroFormOverridesController.php:395-400 | an accepted list has one patch per array entry, in order, each the entry's `fromArray` |
| AcroFormOverridesController.RejectionNamesThePatch | src/Controller/AcroFormOverridesController.php:401-402 | a refusal comes from an array entry without an id, every earlier entry being accepted, and its message is `Patch {key}: fieldId is required.` |
| AcroFormOverridesController.RefusedHere | src/Controller/AcroFormOverridesController.php:401-402 | the entry at which the outcome turns into a refusal is the one the message names |
| AcroFormOverridesController.AnsweredEventIgnoresEditor | src/Controller/AcroFormOverridesController.php:463-491 | when a listener set a validation result, an error or a modified PDF, the editor does not affect the answer |
| AcroFormOverridesController.NotImplementedIff | src/Controller/AcroFormOverridesController.php:463-520 | the answer is 501 exactly when no listener answered and no editor is configured |
| AcroFormOverridesController.ValidateOnlySendsNoEditedPdf | src/Controller/AcroFormOverridesController.php:492-513 | in validate-only mode the editor's answer is JSON with status 200, never the edited PDF |
| AcroFormOverridesController.Apply | src/Controller/AcroFormOverridesController.php:381-520 | 404 when disabled or not allowed to modify; 400 for a non-array list, for more patches than the maximum and for a patch without an id; then the PDF step's refusal (`ResolvePdf`: 400, 403 or 502) when it refuses; otherwise the answer in the order validation result, error, modified PDF, editor, 501, with validate-only read as debug and a non-empty `validate_only` |
| AcroFormOverridesController.Respond | src/Controller/AcroFormOverridesController.php:463-520 | the answer is read off the event's slots and the editor in the controller's order |
| AcroFormOverridesController.ResolvePdf | src/Controller/AcroFormOverridesController.php:406-442 | a PDF loaded through `pdf_url` passed the URL check, the allowlist and the SSRF guard and was downloaded (no size limit applies to it); one loaded through `pdf_content` decodes and fits the size limit; with neither field the answer is 400 "Provide pdf_url or pdf_content" |
| AcroFormOverridesController.PdfUrlForbiddenIff | src/Controller/AcroFormOverridesController.php:411-416 | for a valid URL, the answer is 403 exactly when the allowlist refuses it or the SSRF guard blocks it |
| AcroFormOverridesController.PdfUrlIgnoresContent | src/Controller/AcroFormOverridesController.php:406-435 | a string `pdf_url` decides the outcome whatever `pdf_content` holds |
| AcroFormOverridesController.PdfUrlBadGatewayIff | src/Controller/AcroFormOverridesController.php:417-433 | for an allowed URL, the answer is 502 exactly when the download fails |
| AcroFormOverridesController.PdfContentRefusedIff | src/Controller/AcroFormOverridesController.php:435-442 | without a string `pdf_url`, `pdf_content` is refused exactly when it does not decode or is too large |
| SignatureType.AllUnitsAreTheEditorUnits | src/Form/SignatureCoordinatesType.php:67-76 | `getAllUnits` has exactly five distinct entries, and they are exactly the units the editor's conversion table knows (assets/signable-editor/utils.ts) |
| SignatureType.BoxesOverlapAgreesWithEditor | src/Form/SignatureCoordinatesType.php:477-487 | the server's `boxesOverlap` and the editor's (assets/signable-editor/box-drag.ts:65-72) give the same answer on every pair of boxes |
| SignatureType.BoxesOverlapSymmetric | src/Form/SignatureCoordinatesType.php:477-487 | the test is symmetric |
| SignatureType.BoxesOverlapEdges | src/Form/SignatureCoordinatesType.php:479-486 | boxes on different pages never overlap, and a box that starts where the other ends (right or top edge) does not overlap it |
| SignatureType.BoxFromArray | src/Form/SignatureCoordinatesType.php:449-467 | a box is built exactly when page, x, y, width and height are all set; it holds their converted values, the name when set (else empty) and the angle when the key exists, even with a null value (else 0) |
| SignatureType.BoxFromArrayNeedsAllKeys | tests/Form/SignatureCoordinatesTypeTest.php:782-817 | an empty array, a page alone, or a null height give no box |
| SignatureType.CompareKeys | src/Form/SignatureCoordinatesType.php:207-221 | the comparator answers -1, 0 or 1: page first, then y where the two differ by more than 0.0001, then x |
| SignatureType.CompareKeysAntisymmetric | src/Form/SignatureCoordinatesType.php:207-221 | swapping the two entries negates the answer, and an entry compares equal to itself |
| SignatureType.CompareKeysNotTransitive | src/Form/SignatureCoordinatesType.php:215-220 | the y tolerance makes the comparator non-transitive: three boxes 0.00006 apart in y and decreasing in x compare a > b, b > c, yet a < c |
| SignatureType.EnforcedNames | src/Form/SignatureCoordinatesType.php:247 | the enforced set is exactly the trimmed entries of the option's list |
| SignatureType.CheckedNames | src/Form/SignatureCoordinatesType.php:254-263 | one entry per box: its trimmed name when the box is a model with a non-empty name that the enforced list (if any) holds, nothing otherwise |
| SignatureType.UniqueNameViolations | src/Form/SignatureCoordinatesType.php:248-272 | the violations are exactly the boxes whose checked name an earlier box already had, in increasing order; the first box with a name is never reported |
| SignatureType.RepeatedNames | src/Form/SignatureCoordinatesType.php:252-271 | the loop with its `$seen` table reports exactly the repeated names, in increasing order |
| SignatureType.Listed | src/Form/SignatureCoordinatesType.php:279-288 | each listed entry keeps its index among the boxes and the box that entry yields |
| SignatureType.ListedStep | src/Form/SignatureCoordinatesType.php:280-288 | one more entry adds itself to the list exactly when it yields a box |
| SignatureType.OverlapViolations | src/Form/SignatureCoordinatesType.php:275-303 | the overlap callback reports, pair by pair, the index of the later box of every listed pair that overlaps |
| SignatureType.CollectBoxes | src/Form/SignatureCoordinatesType.php:279-288 | the first loop builds the list of boxes and their indexes |
| SignatureType.ScanPairs | src/Form/SignatureCoordinatesType.php:289-302 | the outer index loop reports the rows in order |
| SignatureType.ScanRow | src/Form/SignatureCoordinatesType.php:290-301 | the inner loop reports, for box i, every later box that overlaps it |
| SignatureType.ConfigKey | src/Form/SignatureCoordinatesType.php:498-499 | a string names a config exactly when it is not empty, an integer names the config under its decimal key, and `null` or an array names none |
| SignatureType.MergeNamedConfig | src/Form/SignatureCoordinatesType.php:496-505 | unless the `config` option names (through `ConfigKey`) an array config, the options come back unchanged; otherwise the result has no `config` key, keeps every passed option, takes the named config's other keys, and has no other key |
| SignatureType.ChoicesOf | src/Form/SignatureCoordinatesType.php:513-527 | the choices have one label per unit, the table's label or the unit itself, and each label maps to a unit with that label |
| SignatureType.BuildChoices | src/Form/SignatureCoordinatesType.php:522-526 | the loop builds the choice table, a later unit with the same label overwriting an earlier one |
| SignatureType.ChoicesOfDistinct | src/Form/SignatureCoordinatesType.php:522-526 | with distinct labels, every unit is the value of its own label |
| SignatureType.UnitChoicesOfAllUnits | src/Form/SignatureCoordinatesType.php:67-527 | the choices for all five units are the five translation keys, each mapping to its unit |
| SignatureOverlap.ListedOrdered | src/Form/SignatureCoordinatesType.php:280-288 | the list keeps the boxes' order: a later list entry has a later index |
| SignatureOverlap.ListedHasEvery | src/Form/SignatureCoordinatesType.php:280-288 | every entry that yields a box is in the list |
| SignatureOverlap.PairsHaveIff | src/Form/SignatureCoordinatesType.php:289-302 | the recursive statement that some pair among the first rows reports index k is the plain one: some p < q with p among those rows, the pair overlapping and q the entry k |
| SignatureOverlap.RowHasStep | src/Form/SignatureCoordinatesType.php:290-301 | one more column reports k exactly when it did before or the new pair overlaps at entry k |
| SignatureOverlap.RowReportsMembers | src/Form/SignatureCoordinatesType.php:290-301 | k is in a row's reports exactly when some later box in that row overlaps and is entry k |
| SignatureOverlap.PairReportsStep | src/Form/SignatureCoordinatesType.php:289-302 | one more row carries the membership statement over |
| SignatureOverlap.PairReportsMembers | src/Form/SignatureCoordinatesType.php:289-302 | k is reported by the first i rows exactly when some pair in them overlaps at entry k |
| SignatureOverlap.OverlapReportedIff | src/Form/SignatureCoordinatesType.php:275-303 | entry k is reported exactly when it yields a box that overlaps the box of some earlier entry |
| SignatureOverlap.ReportedPairOverlaps | src/Form/SignatureCoordinatesType.php:296-299 | a reported pair's later entry overlaps an earlier entry |
| SignatureOverlap.OverlappingPairIsListed | src/Form/SignatureCoordinatesType.php:279-302 | two entries that yield overlapping boxes give a listed pair whose later element is the later entry |
| BoxDrag.BoxesOverlapSymmetric | assets/signable-editor/box-drag.ts:65-72 | `boxesOverlap(a, b) == boxesOverlap(b, a)` |
| BoxDrag.BoxesOnDifferentPages | assets/signable-editor/box-drag.ts:66 | boxes on different pages never overlap |
| BoxDrag.AdjacentBoxesDoNotOverlap | assets/signable-editor/box-drag.ts:67-71 | boxes that share only an edge, side by side or one above the other, do not overlap |
| BoxDrag.ContainedBoxOverlaps | assets/signable-editor/box-drag.ts:71 | a box of positive size inside another on the same page overlaps it |
| BoxDrag.BoxesOverlapIffCommonPoint | assets/signable-editor/box-drag.ts:65-72 | for boxes of positive size the test holds exactly when they are on the same page and some point lies strictly inside both |
| Coordinates.EffectiveScale | assets/signable-editor/coordinates.ts:28-75 | the scale used is never zero: the viewport's when non-zero, 1.5 otherwise |
| Coordinates.PdfToFormCoordsCases | assets/signable-editor/coordinates.ts:116-145 | `top_left` flips y to `pageH - y - h`, `top_right` flips x to `pageW - x - w` and y, `bottom_right` flips only x, and any other origin is the identity |
| Coordinates.PdfToFormCoordsInvolution | assets/signable-editor/coordinates.ts:126-143 | applying the conversion twice with the same page, size and origin gives the input back |
| Coordinates.FormToViewportBottomLeft | assets/signable-editor/coordinates.ts:20-54 | with `bottom_left` or an unknown origin the pixel position is `x·s` and `height - (y + h)·s` |
| Coordinates.FormToViewportTopLeftCorner | assets/signable-editor/coordinates.ts:33-53 | with `top_left` the form origin is the viewport's top-left corner |
| Coordinates.ViewportToFormOfFormToViewport | assets/signable-editor/coordinates.ts:20-101 | when `convertToPdfPoint(x, y)` is `(x/s, (H - y)/s)`, `viewportToForm(formToViewport(p))` gives p back, for every origin |
| Coordinates.ZeroScaleIsOnePointFive | assets/signable-editor/coordinates.ts:28-75 | a zero scale behaves as 1.5 in both converters |
| MoveResize.ViewportPixelsToPdfRect | assets/acroform-editor/acroform-move-resize.ts:19-32 | with a non-zero scale s, llx is `left/s` and ury is `(vp.height - top)/s`; a zero scale gives no rectangle |
| MoveResize.PdfRectSize | assets/acroform-editor/acroform-move-resize.ts:27-30 | `urx - llx == width/s` and `ury - lly == height/s`, so with a positive scale `ury >= lly` whenever `height >= 0` |
| MoveResize.MissingScaleIsOnePointFive | assets/acroform-editor/acroform-move-resize.ts:26 | a missing scale is 1.5 |
| MoveResize.MoveOverlay | assets/acroform-editor/acroform-move-resize.ts:94-98 | a move keeps width and height, never puts left or top below 0 nor the box past the viewport when it fits, and moves by exactly the drag when that stays inside |
| MoveResize.ResizeEdges | assets/acroform-editor/acroform-move-resize.ts:99-117 | an unknown handle changes nothing; each handle moves only its own two edges; a moved right or bottom edge stays within the viewport and, room permitting, the minimum size from the opposite edge; a moved left or top edge stays at or above 0 and, room permitting, the minimum size from the opposite edge |
| MoveResize.MoveKeepsSize | assets/acroform-editor/acroform-move-resize.ts:94-98 | `onMove` in move mode keeps the size and keeps the box inside the viewport when it fits |
| MoveResize.UnknownHandleKeepsOverlay | assets/acroform-editor/acroform-move-resize.ts:99-122 | a resize with no known handle leaves the overlay where it started |
| MoveResize.ResizeStaysInViewport | assets/acroform-editor/acroform-move-resize.ts:99-122 | a resize that starts inside the viewport never moves right past the width, bottom past the height, or left and top below 0 |
| SignableUtils.PtToUnitFactor | assets/signable-editor/constants.ts:7-13 | the factor table has exactly the five units pt, mm, cm, in, px, and every factor is positive |
| SignableUtils.Factor | assets/signable-editor/utils.ts:21 | the factor used by the conversions is positive, and an unknown unit falls back to 1 through `??` |
| SignableUtils.UnitToPtOfPtToUnit | assets/signable-editor/utils.ts:20-33 | converting points to any unit and back gives the original value |
| SignableUtils.PtToUnitOfUnitToPt | assets/signable-editor/utils.ts:20-33 | converting a unit value to points and back gives the original value |
| SignableUtils.UnknownUnitIsIdentity | assets/signable-editor/utils.ts:21 | an unknown unit leaves the value unchanged in both directions |
| SignableUtils.OneInch | assets/signable-editor/constants.ts:8-12 | 72 pt are 1 in, 25.4 mm, 2.54 cm and 96 px, and 1 in is 72 pt |
| SignableUtils.EscapeHtmlConcat | assets/signable-editor/utils.ts:41-48 | escaping distributes over concatenation |
| SignableUtils.EscapeHtmlChar | assets/signable-editor/utils.ts:43-47 | one character escapes to its single entity: `&amp;`, `&lt;`, `&gt;`, `&quot;`, `&#39;`, or itself |
| SignableUtils.EscapeHtmlPerChar | assets/signable-editor/utils.ts:41-48 | the five chained replacements equal one character-by-character substitution |
| SignableUtils.EscapeHtmlHasNoRawSpecials | assets/signable-editor/utils.ts:41-48 | no `<`, `>`, `"` or `'` is left in the escaped text |
| SignableUtils.EntityAvoids | assets/signable-editor/utils.ts:43-47 | no entity contains `<`, `>`, `"` or `'` |
| SignableUtils.EscapeHtmlOfPlainText | assets/signable-editor/utils.ts:41-48 | text without special characters is left unchanged |
| SignableUtils.UnescapeEntity | assets/signable-editor/utils.ts:43-47 | each entity decodes back to its character, whatever follows it |
| SignableUtils.UnescapeEscapeHtml | assets/signable-editor/utils.ts:41-48 | escaping is injective: decoding the five entities recovers the original string |
| SignableUtils.UnescapeFlatMap | assets/signable-editor/utils.ts:43-47 | decoding undoes the per-character substitution |
| SignableUtils.EscapeHtmlOfEntity | assets/signable-editor/utils.ts:43 | `&` is replaced first, so an existing entity is escaped again (`&lt;` becomes `&amp;lt;`) and is not decoded |
| AcroFormStrings.DefaultStringsEmpty | assets/acroform-editor/strings.ts:18 | the fallback map is empty, so every lookup misses and callers fall back to the key |
| AcroFormStrings.EscapeAttrChar | assets/acroform-editor/strings.ts:26-28 | one character escapes to `&amp;`, `&quot;` or itself |
| AcroFormStrings.EscapeAttrConcat | assets/acroform-editor/strings.ts:26-28 | attribute escaping distributes over concatenation |
| AcroFormStrings.EscapeAttrPerChar | assets/acroform-editor/strings.ts:26-28 | the two chained replacements, `&` first, equal one character-by-character substitution |
| AcroFormStrings.EscapeAttrKeeps | assets/acroform-editor/strings.ts:26-28 | any character other than `&` and `"` is copied through in place |
| AcroFormStrings.EscapeAttrOfPlainText | assets/acroform-editor/strings.test.ts:40-42 | text without `&` and `"` is returned unchanged |
| AcroFormStrings.EscapeAttrHasNoQuote | assets/acroform-editor/strings.ts:26-28 | no raw double quote survives, so the result cannot end an attribute value |
| AcroFormStrings.EscapeAttrAgreesWithEscapeHtml | assets/acroform-editor/strings.ts:26-28 | on text without `<`, `>` and `'`, attribute escaping and the signable editor's `escapeHtml` agree |
| AcroFormStrings.EscapeAttrOfAmpersandText | assets/acroform-editor/strings.test.ts:16-18 | `a & b` escapes to `a &amp; b` |
| AcroFormStrings.EscapeAttrOfQuotedText | assets/acroform-editor/strings.test.ts:20-22 | a quoted word has both quotes replaced by `&quot;` |
| EditorConfig.KeepChoices | assets/acroform-editor/config.ts:61-75 | the mapped and filtered list is no longer than the array and holds no empty value |
| EditorConfig.KeepChoicesAppend | assets/acroform-editor/config.ts:61-75 | mapping and filtering two arrays one after the other gives the two results concatenated |
| EditorConfig.Positions | assets/acroform-editor/config.ts:61-75 | every position listed is a position of the array |
| EditorConfig.PositionsIncrease | assets/acroform-editor/config.ts:61-75 | the positions listed increase, so the filter keeps array order |
| EditorConfig.PositionsComplete | assets/acroform-editor/config.ts:61-75 | every accepted element has its position listed, so the filter skips none |
| EditorConfig.KeepChoicesAt | assets/acroform-editor/config.ts:61-75 | the kept choices are, one to one, the choices of the elements at the kept positions |
| EditorConfig.MapsToStep | assets/acroform-editor/config.ts:61-74 | an element maps to a choice exactly when the first element does or one of the rest does |
| EditorConfig.KeptChoice | assets/acroform-editor/config.ts:61-75 | a choice is kept exactly when its value is non-empty and some array element maps to it |
| EditorConfig.KeptChoices | assets/acroform-editor/config.ts:61-75 | the same membership equivalence for all choices at once |
| EditorConfig.ParseLabelChoices | assets/acroform-editor/config.ts:56-79 | a missing or empty attribute, a parse error or a non-array gives `[]`; otherwise a choice is in the result exactly when its value is non-empty and some element maps to it |
| EditorConfig.ParseFontFamilies | assets/acroform-editor/config.ts:125-148 | font families decode like label choices: `[]` on any failure, otherwise exactly the non-empty choices the elements map to |
| EditorConfig.ParseLabelChoicesInOrder | assets/acroform-editor/config.ts:56-79 | for a parsed array, the result lists the choices of exactly the elements with a non-empty value, at increasing positions |
| EditorConfig.ParseFontFamiliesInOrder | assets/acroform-editor/config.ts:125-148 | the same for font families |
| EditorConfig.ChoiceOfPipedString | assets/acroform-editor/config.ts:64-65 | a string with a pipe splits at the first one into a trimmed value and a trimmed label |
| EditorConfig.ChoiceOfPlainString | assets/acroform-editor/config.ts:66 | a string without a pipe is both the trimmed value and the trimmed label |
| EditorConfig.ChoiceOfObject | assets/acroform-editor/config.ts:68-71 | an object with a string `value` and no string `label` gives that value and no label |
| EditorConfig.ChoiceOfOtherIsDropped | assets/acroform-editor/config.ts:73-75 | any element that is neither a string nor an object with `value` gets an empty value, so the filter drops it |
| EditorConfig.DigitPrefix | assets/acroform-editor/config.ts:113 | the digits `parseInt` reads are the longest all-digit prefix of the string |
| EditorConfig.JsParseInt | assets/acroform-editor/config.ts:113 | `parseInt(n, 10)` has a number only when the string holds a digit |
| EditorConfig.DigitPrefixOfDigits | assets/acroform-editor/config.ts:113 | the digit prefix of digits followed by a non-digit is those digits |
| EditorConfig.JsParseIntOfDecimal | assets/acroform-editor/config.test.ts:88-90 | the decimal text of n, followed by anything that does not start with a digit, parses to n |
| EditorConfig.JsParseIntOfDigits | assets/acroform-editor/config.ts:113 | a string starting with a digit parses to the value of its digit prefix |
| EditorConfig.KeepSizes | assets/acroform-editor/config.ts:112-114 | the kept sizes are no more than the elements and every one is at least 1 |
| EditorConfig.SomeKeptStep | assets/acroform-editor/config.ts:112-114 | some element yields n exactly when the first one does or one of the rest does |
| EditorConfig.KeptSizeIff | assets/acroform-editor/config.ts:112-114 | n is in the result exactly when some element yields n |
| EditorConfig.NumbersAreKept | assets/acroform-editor/config.ts:113 | an array of finite numbers loses nothing, because `Math.max(1, …)` keeps every one |
| EditorConfig.KeptSizes | assets/acroform-editor/config.ts:112-114 | the membership equivalence for all sizes, and no loss on an all-number array |
| EditorConfig.KeepSizesAppend | assets/acroform-editor/config.ts:107-118 | the size filter over two arrays is the two results concatenated |
| EditorConfig.KeepSizesAt | assets/acroform-editor/config.ts:107-118 | the kept sizes are, one to one, the sizes of the elements at the kept positions |
| EditorConfig.ParseFontSizes | assets/acroform-editor/config.ts:107-118 | `[]` on any failure; otherwise positive integers, exactly those some element yields, one per element when all are numbers |
| EditorConfig.ParseFontSizesInOrder | assets/acroform-editor/config.ts:107-118 | for a parsed array, the result lists the sizes of exactly the elements yielding a size of at least 1, at increasing positions |
| EditorConfig.FontSizeOfNumber | assets/acroform-editor/config.ts:113 | a number always yields a size of at least 1: an integer below 1 gives 1, any other integer itself; a float below 0.5 gives 1, any other float its nearest integer |
| EditorConfig.FontSizeOfWordless | assets/acroform-editor/config.ts:113-114 | a string without a digit yields no size and is dropped |
| EditorConfig.GetConfig | assets/acroform-editor/config.ts:86-100 | `debug` is on exactly for "1" and "true"; the mode is choice exactly for "choice"; the rectangle is hidden exactly for "0" and "false"; missing URLs are empty; the document key is copied |
| EditorConfig.OtherTextIsTrimmed | assets/acroform-editor/config.ts:95 | the "Other" text is the trimmed attribute, or empty when it is missing |
| EditorConfig.GetConfigDefaults | assets/acroform-editor/config.test.ts:139-201 | with no attributes the mode is input, the rectangle is shown, debug is off and every list is empty |
| DaFontSize.Span | scripts/extract_acroform_fields.py:66 | a greedy character-class run: the string splits into a prefix of class characters and a rest that does not start with one |
| DaFontSize.SpanOf | scripts/extract_acroform_fields.py:66 | a run of class characters followed by a non-class character is exactly the span taken |
| DaFontSize.TfMatchHere | scripts/extract_acroform_fields.py:66 | a match anchored here yields a non-empty group of digits and dots |
| DaFontSize.FirstTfMatch | scripts/extract_acroform_fields.py:66-67 | the leftmost match's group is non-empty and made of digits and dots |
| DaFontSize.SizeValue | scripts/extract_acroform_fields.py:68-71 | `float()` of the group is non-negative when it succeeds, and fails on several dots or on a lone dot |
| DaFontSize.ParseFontSizeFromDa | scripts/extract_acroform_fields.py:57-72 | a missing, empty or non-string DA gives None; any size found is non-negative |
| DaFontSize.SkipNoSlash | scripts/extract_acroform_fields.py:66 | text before the first `/` never starts a match |
| DaFontSize.MatchOfDa | scripts/extract_acroform_fields.py:66 | for any `/Font size Tf` after slash-free text the group is the size text, whatever the spacing and the rest |
| DaFontSize.SizeOfDa | scripts/extract_acroform_fields.py:57-72 | the size of such a well-formed DA string is `float()` of its size text |
| DaFontSize.SizeValueOfDigits | scripts/extract_acroform_fields.py:68-71 | `float()` of a digit run is its decimal value |
| DaFontSize.SizeValueOfDecimal | scripts/extract_acroform_fields.py:68-71 | `float()` of digits, a dot and digits is the whole part plus the fraction over the matching power of ten |
| DaFontSize.SizeOfHelv12 | scripts/test/test_scripts.py:40 | "0 0 0 rg /Helv 12 Tf" gives 12 |
| DaFontSize.SizeOfHelvetica10 | scripts/test/test_scripts.py:41 | "/Helvetica 10 Tf" gives 10 |
| DaFontSize.SizeOfSymbol9point5 | scripts/test/test_scripts.py:42 | "/MyFont+Symbol 9.5 Tf" gives 9.5 |
| DaFontSize.SizeOfCombined10point25 | scripts/test/test_scripts.py:58 | "0 0 0 rg /Helv+Symbol 10.25 Tf" gives 10.25 |
| DaFontSize.SizeOfDoubleSpaced | scripts/test/test_scripts.py:64 | "/Helvetica  12  Tf", with doubled spaces, gives 12 |
| DaFontSize.SizeOfTwoDots | scripts/extract_acroform_fields.py:68-72 | a size "1.2.3" matches the pattern, but `float()` raises and the result is None |
| DaFontSize.NoSlashNoSize | scripts/extract_acroform_fields.py:57-72 | a DA string without a `/` has no size |
| Pdf.Get | scripts/extract_acroform_fields.py:80 | `obj.get(key)` has a value exactly when the key is present |
| Pdf.Resolve | scripts/extract_acroform_fields.py:22-33 | a direct object is returned unchanged; a reference resolves exactly when its object exists, to that object |
| Pdf.ParentOf | scripts/extract_acroform_fields.py:149-154 | the parent dictionary is found exactly when /Parent is present and its object exists |
| Pdf.GetInheritable | scripts/extract_acroform_fields.py:75-88 | the key's resolved own value when present; otherwise the parent's unresolved value, or None without a parent |
| Pdf.InheritanceIsOneLevel | scripts/extract_acroform_fields.py:75-88 | a key missing from the dictionary and from its parent is missing, whatever older ancestors hold |
| AcroFormExtract.RemoveChar | scripts/extract_acroform_fields.py:54 | `replace("/", "")` leaves no slash |
| AcroFormExtract.DropSlash | scripts/extract_acroform_fields.py:39 | a name's text loses its leading `/` and nothing else; text without one is unchanged |
| AcroFormExtract.PdfInt | scripts/extract_acroform_fields.py:169 | `int()` keeps an integer as it is; arrays, dictionaries, references, null and booleans raise and give no value |
| AcroFormExtract.RectOf | scripts/extract_acroform_fields.py:137-144 | the rectangle read fails, ending the pass, exactly for a dictionary with 4 or more entries; an array with fewer than 4 entries is skipped |
| AcroFormExtract.Max0 | scripts/extract_acroform_fields.py:145-146 | `max(0, x)` is non-negative, at least x, and x itself when x is non-negative |
| AcroFormExtract.FieldDict | scripts/extract_acroform_fields.py:149-154 | the field dictionary is the resolved parent when there is one, otherwise the widget |
| AcroFormExtract.Info | scripts/extract_acroform_fields.py:142-205 | the descriptor keeps the rectangle and the page, its width and height are `max(0, …)` of the differences, and its field type is never empty |
| AcroFormExtract.DescribeFacts | scripts/extract_acroform_fields.py:124-146 | a dangling entry is skipped; a failure comes only from a raising /Rect; a descriptor comes only from a `Widget` with a usable rectangle and reports its page |
| AcroFormExtract.Suffix | scripts/extract_acroform_fields.py:189 | the de-duplication suffix starts with `@` |
| AcroFormExtract.BaseId | scripts/extract_acroform_fields.py:187 | the identifier before de-duplication is the stripped name when it is not blank, otherwise `p{page}-{idx}`; it is never empty |
| AcroFormExtract.AssignId | scripts/extract_acroform_fields.py:188-190 | the corrected assignment: the identifier is never already taken, is the base when the base is free, and otherwise starts with the base and the suffix |
| AcroFormExtract.ChooseId | scripts/extract_acroform_fields.py:187-190 | a free base is kept; a taken one gets a text starting with the base and the entry's `@page-idx` suffix; the corrected choice is never taken |
| AcroFormExtract.Fresh | scripts/extract_acroform_fields.py:189 | appending the suffix until the identifier is free gives a free identifier that starts with the candidate |
| AcroFormExtract.IdsAppend | scripts/extract_acroform_fields.py:190-192 | the identifiers seen after a descriptor is appended are the earlier ones plus its own |
| AcroFormExtract.InIds | scripts/extract_acroform_fields.py:190 | the seen set holds exactly the identifiers of the emitted descriptors |
| AcroFormExtract.PageSlots | scripts/extract_acroform_fields.py:119-124 | a page without /Annots has no entries; otherwise entry k of the page is its k-th annotation |
| AcroFormExtract.IdAssigner | scripts/extract_acroform_fields.py:186-190 | the identifier of a descriptor is `ChooseId` of its base id against those emitted before it; in the corrected program it is never one of them |
| AcroFormExtract.ExtractPage | scripts/extract_acroform_fields.py:123-205 | the inner loop gives the fold of the page's entries over the fields before it, with the emitted identifiers as its seen set |
| AcroFormExtract.EmitField | scripts/extract_acroform_fields.py:186-205 | an emitted field appends its descriptor with the as-written identifier and adds it to the seen set |
| AcroFormExtract.ExtractFields | scripts/extract_acroform_fields.py:115-207 | the two nested loops compute the pass over all entries, page by page, a failure included |
| AcroFormExtract.FoldFromConcat | scripts/extract_acroform_fields.py:118-205 | running the loop over two runs of entries in turn is running it over both |
| AcroFormExtract.FailureIsFinal | scripts/extract_acroform_fields.py:118-205 | once an exception ends the pass, no later entry changes the outcome |
| AcroFormExtract.FoldPagesFailure | scripts/extract_acroform_fields.py:118-205 | a failure on the first pages is the failure of the whole document |
| AcroFormExtract.FoldPagesIsFold | scripts/extract_acroform_fields.py:118-124 | the page loop with the annotation loop inside it is one loop over every entry in document order |
| AcroFormExtract.PageFailsAt | scripts/extract_acroform_fields.py:141-144 | an entry that raises, reached after a successful prefix, is the failure of the rest of the loop |
| AcroFormExtract.FoldPagesStep | scripts/extract_acroform_fields.py:118-124 | one more page continues the pass over that page's entries |
| AcroFormExtract.PassFailsAt | scripts/extract_acroform_fields.py:118-205 | the first raising entry of a page decides the document's failure |
| AcroFormExtract.FailsOnlyOnFailingEntry | scripts/extract_acroform_fields.py:118-205 | the loop fails exactly when some entry's reading fails |
| AcroFormExtract.ExtractFailureHasFailingEntry | scripts/extract_acroform_fields.py:118-205 | a failed extraction has an entry whose description fails |
| AcroFormExtract.FailingEntryFailsExtract | scripts/extract_acroform_fields.py:118-205 | an entry whose description fails makes the extraction fail |
| AcroFormExtract.ExtractFailsOnFailingEntry | scripts/extract_acroform_fields.py:118-205 | the extraction fails exactly when some entry's description fails |
| AcroFormExtract.EntryFailsOnlyOnRaisingRect | scripts/extract_acroform_fields.py:137-144 | an entry fails only when its /Rect is a dictionary that raises on indexing |
| AcroFormExtract.IdsUnique | scripts/extract_acroform_fields.py:186-192 | with an assigner that never reuses an identifier, the output's identifiers are pairwise distinct |
| AcroFormExtract.Kept | scripts/extract_acroform_fields.py:118-205 | the positions of the entries that produce a descriptor are valid and strictly increasing |
| AcroFormExtract.MatchesKeptStep | scripts/extract_acroform_fields.py:186-205 | one more entry keeps descriptor k matched with the k-th kept entry and its identifier with the ones before it |
| AcroFormExtract.OutputIsKeptEntries | scripts/extract_acroform_fields.py:118-205 | descriptor k is the reading of the k-th kept entry, with the identifier chosen from the identifiers before it |
| AcroFormExtract.EntryReaderReports | scripts/extract_acroform_fields.py:145-199 | every description reports its entry's page and non-negative sizes |
| AcroFormExtract.DescriptorsReport | scripts/extract_acroform_fields.py:192-205 | every descriptor carries its entry's page and non-negative sizes |
| AcroFormExtract.DocSlotsPages | scripts/extract_acroform_fields.py:118 | every entry's page number is between 1 and the number of pages |
| AcroFormExtract.DocSlotsOrdered | scripts/extract_acroform_fields.py:118-124 | entries come page by page, and in /Annots order within a page |
| AcroFormExtract.ExtractIdsUnique | scripts/extract_acroform_fields.py:186-190 | the corrected pass gives pairwise distinct identifiers (as written they can repeat: `ExtractIdRepeats`) |
| AcroFormExtract.BaseIdAvoidsAt | scripts/extract_acroform_fields.py:187 | a base identifier holds an `@` only when the field name does |
| AcroFormExtract.SuffixInjective | scripts/extract_acroform_fields.py:189 | two entries with the same suffix are the same entry |
| AcroFormExtract.SuffixedEqual | scripts/extract_acroform_fields.py:189 | two suffixed identifiers over `@`-free bases are equal only for the same base and entry |
| AcroFormExtract.AsWrittenIdsUnique | scripts/extract_acroform_fields.py:186-192 | as written, the identifiers of entries in page-major order are distinct when no field name holds an `@` |
| AcroFormExtract.ExtractIdsUniqueAsWritten | scripts/extract_acroform_fields.py:115-207 | as written, `extract_fields` gives distinct identifiers when no field name holds an `@` |
| AcroFormExtract.ExtractIdRepeats | scripts/extract_acroform_fields.py:186-190 | a descriptor's identifier repeats an earlier one exactly when, as written, both its base and its suffixed base are taken; corrected, never |
| AcroFormExtract.ExtractDescribesEntries | scripts/extract_acroform_fields.py:118-207 | in either program, each descriptor is the description of a kept entry, in entry order, with the identifier that program's `ChooseId` picks against the identifiers before it |
| AcroFormExtract.ExtractPagesAndSizes | scripts/extract_acroform_fields.py:145-199 | every descriptor has non-negative sizes and a page of the document, and pages never decrease along the output |
| AcroFormExtract.FirstOccurrenceKeepsName | scripts/extract_acroform_fields.py:187-190 | of two fields with the same name, the first keeps the bare name and the second does not |
| AcroFormExtract.NameComesFromParent | scripts/extract_acroform_fields.py:149-160 | a widget with a parent takes its name from the parent's /T |
| AcroFormExtract.NameSubtypeDescribed | scripts/extract_acroform_fields.py:129-135 | as written an entry whose /Subtype is a name is skipped; corrected, a /Widget name with a usable rectangle gives its descriptor |
| AcroFormExtract.NameSubtypesExtractNothing | scripts/extract_acroform_fields.py:118-135 | as written, a document whose annotations all carry a name /Subtype extracts to no field |
| AcroFormPatchRules.FieldTypeSynonym | scripts/apply_acroform_patches.py:86-94 | a recognised field-type word maps to one of /Tx, /Btn, /Ch, /Sig |
| AcroFormPatchRules.ControlTypeSynonym | scripts/apply_acroform_patches.py:99-105 | a recognised control type maps to /Tx, /Btn or /Ch, never to /Sig |
| AcroFormPatchRules.FromFieldType | scripts/apply_acroform_patches.py:84-96 | a missing `fieldType` gives nothing; any result is one of the four field types |
| AcroFormPatchRules.FromControlType | scripts/apply_acroform_patches.py:97-105 | any result from the control type is /Tx, /Btn or /Ch |
| AcroFormPatchRules.PatchFieldType | scripts/apply_acroform_patches.py:82-106 | the field type wins when it maps; only otherwise is the control type consulted; any result is a valid /FT name |
| AcroFormPatchRules.SigOnlyFromFieldType | scripts/apply_acroform_patches.py:97-106 | /Sig is reachable only through `fieldType`, never through `controlType` |
| AcroFormPatchRules.PdfFontName | scripts/apply_acroform_patches.py:52-72 | the result is always one of the six standard base fonts; a missing, non-string, empty or unknown family gives Helvetica |
| AcroFormPatchRules.ClampFontSize | scripts/apply_acroform_patches.py:78 | the size is clamped to [1, 999] and kept when already inside |
| AcroFormPatchIndex.PairOf | scripts/apply_acroform_patches.py:168-169 | the position exists exactly when both `int()` calls succeed |
| AcroFormPatchIndex.PositionalKey | scripts/apply_acroform_patches.py:164-184 | an identifier gives a position only when it contains `-` |
| AcroFormPatchIndex.FieldNameKey | scripts/apply_acroform_patches.py:186-188 | the second name key is non-empty and differs from the identifier |
| AcroFormPatchIndex.NoIdNotIndexed | scripts/apply_acroform_patches.py:160-162 | a patch without `fieldId` or `field_id` leaves both indexes unchanged |
| AcroFormPatchIndex.IndexedUnderItsKeys | scripts/apply_acroform_patches.py:159-188 | a patch goes under its position, or under its identifier when it has none, and under a distinct field name; later patches overwrite earlier ones; no other key changes |
| AcroFormPatchIndex.InsertKeys | scripts/apply_acroform_patches.py:170-188 | the index writes change exactly the position or identifier key and the field-name key |
| AcroFormPatchIndex.BuildIndexFailsAt | scripts/apply_acroform_patches.py:159-160 | a non-dictionary entry after a successful prefix raises AttributeError on `.get` |
| AcroFormPatchIndex.BuildIndexFailsOnNonDict | scripts/apply_acroform_patches.py:145-188 | building the index fails exactly when some patch entry is not a dictionary |
| AcroFormPatchIndex.BuildIndexError | scripts/apply_acroform_patches.py:159-160 | the only failure is AttributeError |
| AcroFormPatchIndex.PyIntOfNat | scripts/apply_acroform_patches.py:168-169 | `int()` of the decimal text of n is n |
| Values.PyIntError | scripts/apply_acroform_patches.py:344 | where `int()` has no value it raises TypeError for `None`, a list or a dict, and ValueError exactly for a string |
| AcroFormPatchIndex.PositionalIdIsPositional | scripts/apply_acroform_patches.py:164-170 | the extractor's `p{page}-{idx}` identifier indexes the patch under (page, idx) |
| AcroFormPatchIndex.SuffixedIdIsPositional | scripts/apply_acroform_patches.py:173-180 | the extractor's `{name}@{page}-{idx}` identifier, for a name without `@`, indexes the patch under (page, idx) |
| AcroFormPatchWidget.SetKey | scripts/apply_acroform_patches.py:246 | `obj[key] = value` changes that one entry of that one dictionary and nothing else |
| AcroFormPatchWidget.ApplyWrites | scripts/apply_acroform_patches.py:246-317 | a sequence of writes never adds or removes an object |
| AcroFormPatchWidget.Put | scripts/apply_acroform_patches.py:246-317 | a conditional write is at most one write, to the given object and key |
| AcroFormPatchWidget.RectArray | scripts/apply_acroform_patches.py:236-248 | a new /Rect exists only for a `rect` list of at least four entries and is an array of four numbers |
| AcroFormPatchWidget.LabelText | scripts/apply_acroform_patches.py:251-252 | the tooltip is written only when the stripped label is non-empty |
| AcroFormPatchWidget.DefaultText | scripts/apply_acroform_patches.py:255-260 | a value is written exactly when `defaultValue` is present and not null |
| AcroFormPatchWidget.MaxLenValue | scripts/apply_acroform_patches.py:286-290 | /MaxLen is written only when `maxLen` is present and `int()` accepts it, with that integer |
| AcroFormPatchWidget.OptItem | scripts/apply_acroform_patches.py:295-307 | each /Opt entry is a string, or an `[export, display]` pair of strings |
| AcroFormPatchWidget.OptArray | scripts/apply_acroform_patches.py:294-307 | /Opt has one entry per option, in order |
| AcroFormPatchWidget.OptObj | scripts/apply_acroform_patches.py:293-309 | /Opt is written exactly for a non-empty `options` list |
| AcroFormPatchWidget.DaText | scripts/apply_acroform_patches.py:312-319 | /DA is written only when `fontSize` or `fontFamily` is present |
| AcroFormPatchWidget.ParentRef | scripts/apply_acroform_patches.py:232-233 | the parent written to exists, and there is one exactly when /Parent resolves |
| AcroFormPatchWidget.WritesToConcat | scripts/apply_acroform_patches.py:246-317 | writes confined to one object's keys stay confined when concatenated |
| AcroFormPatchWidget.FrameWrites | scripts/apply_acroform_patches.py:236-252 | the first writes touch only the widget's /Rect and /TU |
| AcroFormPatchWidget.ValuePair | scripts/apply_acroform_patches.py:259-263 | a value is written to /V and /DV only |
| AcroFormPatchWidget.WidgetValueWrites | scripts/apply_acroform_patches.py:259-260 | the widget's value writes touch only its /V and /DV |
| AcroFormPatchWidget.ParentValueWrites | scripts/apply_acroform_patches.py:261-263 | the parent's value writes touch only its /V and /DV, and there are none without a parent |
| AcroFormPatchWidget.ParentWrites | scripts/apply_acroform_patches.py:280-309 | /FT, /MaxLen and /Opt are written on the parent only, and not at all without one |
| AcroFormPatchWidget.DaWrites | scripts/apply_acroform_patches.py:312-317 | the appearance write touches only the widget's /DA |
| AcroFormPatchWidget.AddressedConcat | scripts/apply_acroform_patches.py:232-317 | writes to the widget's or parent's own keys stay so when concatenated |
| AcroFormPatchWidget.WritesToAddressed | scripts/apply_acroform_patches.py:232-317 | writes to widget keys of the widget, or parent keys of the parent, address only those |
| AcroFormPatchWidget.WidgetWritesAddressed | scripts/apply_acroform_patches.py:232-317 | all writes for one matched widget go to the widget's five keys or the parent's five keys |
| AcroFormPatchWidget.WidgetWritesOk | scripts/apply_acroform_patches.py:232-317 | all writes go to existing objects and never to /Parent |
| AcroFormPatchWidget.WriteWidget | scripts/apply_acroform_patches.py:232-319 | patching a widget keeps the set of objects |
| AcroFormPatchWidget.PatchedWidget | scripts/apply_acroform_patches.py:227-319 | the matched-widget update keeps the set of objects |
| AcroFormPatchWidget.ApplyWritesGet | scripts/apply_acroform_patches.py:246-317 | after the writes an entry holds its last write, or its old value when never written |
| AcroFormPatchWidget.ApplyWritesUntouched | scripts/apply_acroform_patches.py:246-317 | an object no write addresses is unchanged |
| AcroFormPatchWidget.LastWriteConcat | scripts/apply_acroform_patches.py:246-317 | the last write of two runs is the second's when it has one, else the first's |
| AcroFormPatchWidget.LastWriteAbsent | scripts/apply_acroform_patches.py:246-317 | an entry no write addresses has no last write |
| AcroFormPatchWidget.LastWriteOutside | scripts/apply_acroform_patches.py:246-317 | writes confined to one object's keys leave every other entry unwritten |
| AcroFormPatchWidget.PutLast | scripts/apply_acroform_patches.py:246-317 | a conditional write's last write is its value at its own key, and nothing elsewhere |
| AcroFormPatchWidget.ValuePairLast | scripts/apply_acroform_patches.py:259-263 | the value pair leaves the string in /V and /DV and nothing elsewhere |
| AcroFormPatchWidget.WriteWidgetGet | scripts/apply_acroform_patches.py:236-317 | each entry ends with the latest segment's write, in the order the script writes, or its old value |
| AcroFormPatchWidget.PatchKeepsOtherEntries | scripts/apply_acroform_patches.py:232-319 | the widget changes only in /Rect, /TU, /V, /DV, /DA and its parent only in /V, /DV, /FT, /MaxLen, /Opt; /T and /Parent never change |
| AcroFormPatchWidget.PatchKeepsOtherObjects | scripts/apply_acroform_patches.py:232-319 | every object other than the widget and its parent is unchanged |
| AcroFormPatchWidget.WriteWidgetValuesSet | scripts/apply_acroform_patches.py:255-263 | with a value, the widget's and the parent's /V and /DV hold it afterwards |
| AcroFormPatchWidget.WriteWidgetValuesKept | scripts/apply_acroform_patches.py:255-263 | without a value, or on any other object, /V and /DV are unchanged |
| AcroFormPatchWidget.PatchSetsValues | scripts/apply_acroform_patches.py:255-263 | `defaultValue` sets /V and /DV to its `str()` on the widget and the resolving parent, and without it neither changes anywhere |
| AcroFormPatchWidget.WriteWidgetOwnKey | scripts/apply_acroform_patches.py:236-317 | /Rect, /TU and /DA hold their one write, or their old value |
| AcroFormPatchWidget.PatchSetsWidgetKeys | scripts/apply_acroform_patches.py:236-319 | /Rect, /TU and /DA take the patch's rectangle, stripped label and synthesised appearance, each only when the patch yields one |
| AcroFormPatchWidget.WriteWidgetParentKey | scripts/apply_acroform_patches.py:280-309 | /FT, /MaxLen and /Opt hold their one write on the parent, or their old value |
| AcroFormPatchWidget.PatchSetsParentKeys | scripts/apply_acroform_patches.py:280-309 | /FT, /MaxLen and /Opt are set on the parent only when the patch yields each, and nowhere without a resolving parent |
| AcroFormPatchWidget.BaseFontChars | scripts/apply_acroform_patches.py:52-72 | every base font name is a non-empty run of the characters the extractor's pattern accepts in a font name |
| AcroFormPatchWidget.DaShape | scripts/apply_acroform_patches.py:79 | the appearance string has the `/Font size Tf` shape after its colour operator |
| AcroFormPatchWidget.DaPrefix | scripts/apply_acroform_patches.py:79 | the colour prefix has no slash and the separator is white space |
| AcroFormPatchWidget.DaStringSizeRoundTrip | scripts/apply_acroform_patches.py:75-79 | the extractor reads back from the synthesised /DA exactly the clamped, formatted size |
| AcroFormApply.LookupName | scripts/apply_acroform_patches.py:215 | the corrected name lookup finds whatever the raw /T text finds, and also the stripped text the extractor reports as the identifier; it succeeds exactly when either is a key |
| AcroFormApply.FindPatch | scripts/apply_acroform_patches.py:204-217 | the corrected lookup: the positional table wins; only without a positional hit, and only for an entry that resolves and has a /T, is the name table consulted, under the raw and then the stripped /T |
| AcroFormApply.FindPatchAsWritten | scripts/apply_acroform_patches.py:204-217 | the lookup as written agrees with the corrected one whenever the position is indexed |
| AcroFormApply.EntryStep | scripts/apply_acroform_patches.py:203-321 | one /Annots entry never adds or removes objects and leaves the object count, the pages and the form alone |
| AcroFormApply.Entries | scripts/apply_acroform_patches.py:203-321 | the annotation loop keeps the set of objects, the object count, the pages and the form |
| AcroFormApply.PageStep | scripts/apply_acroform_patches.py:192-326 | one page keeps the number of pages, the object count, the form and the set of objects |
| AcroFormApply.Pages | scripts/apply_acroform_patches.py:192-326 | the whole page loop keeps the number of pages, the object count, the form and the set of objects |
| AcroFormApply.NewWidget | scripts/apply_acroform_patches.py:353-367 | a created widget has no /Parent, so it is its own field |
| AcroFormApply.WidgetDict | scripts/apply_acroform_patches.py:353-360 | the new widget dictionary carries no /Parent |
| AcroFormApply.NeedAppearances | scripts/apply_acroform_patches.py:400 | afterwards the document has a form whose /NeedAppearances is true |
| AcroFormApply.FoldStaysFailed | scripts/apply_acroform_patches.py:329-386 | once a step raises, the rest of the loop keeps that error |
| AcroFormApply.CreatesNext | scripts/apply_acroform_patches.py:329-386 | after a successful prefix of the create loop, the next patch is one more create step |
| AcroFormApply.ApplyWritesConcat | scripts/apply_acroform_patches.py:246-317 | applying two runs of writes in turn is applying both |
| AcroFormApply.ApplyWritesFive | scripts/apply_acroform_patches.py:236-317 | the five write segments of a matched widget, applied in turn, are the whole sequence |
| AcroFormApply.ApplyWritesOne | scripts/apply_acroform_patches.py:246 | a single write is the single-key update |
| AcroFormApply.PdfWriter.constructor | scripts/apply_acroform_patches.py:150-152 | the writer starts out holding the input document |
| AcroFormApply.PdfWriter.SetEntry | scripts/apply_acroform_patches.py:246 | one conditional assignment changes only the named entry, and nothing outside the objects |
| AcroFormApply.PdfWriter.SetEntries | scripts/apply_acroform_patches.py:259-263 | two assignments to one dictionary are the two writes in order |
| AcroFormApply.PdfWriter.OptionList | scripts/apply_acroform_patches.py:294-307 | the loop builds exactly the /Opt array, entry by entry |
| AcroFormApply.PdfWriter.WriteFrame | scripts/apply_acroform_patches.py:236-252 | the /Rect and /TU assignments perform the frame writes |
| AcroFormApply.PdfWriter.WriteValues | scripts/apply_acroform_patches.py:255-263 | the value assignments perform the widget's and then the parent's value writes |
| AcroFormApply.PdfWriter.WriteParentEntries | scripts/apply_acroform_patches.py:280-309 | the /FT, /MaxLen and /Opt assignments perform the parent writes |
| AcroFormApply.PdfWriter.PatchWidget | scripts/apply_acroform_patches.py:227-319 | patching a matched widget in place leaves the objects `PatchedWidget` describes and nothing else changed |
| AcroFormApply.PdfWriter.IndexOne | scripts/apply_acroform_patches.py:159-188 | one iteration of the indexing loop is `IndexPatch` |
| AcroFormApply.PdfWriter.ApplyPatches | scripts/apply_acroform_patches.py:145-400 | the writer run succeeds exactly when the pass does, returns its applied count and leaves its document; otherwise it fails with the exception the pass raises |
| AcroFormApply.PdfWriter.PatchPages | scripts/apply_acroform_patches.py:190-400 | after indexing, the page loop, the create loop and the flag leave the document the pass describes, or fail with the error it raises |
| AcroFormApply.PdfWriter.PatchPage | scripts/apply_acroform_patches.py:192-326 | one page in place is `PageStep` |
| AcroFormApply.PdfWriter.PatchEntry | scripts/apply_acroform_patches.py:203-321 | one entry in place is `EntryStep` |
| AcroFormApply.PdfWriter.CreateMissing | scripts/apply_acroform_patches.py:329-400 | the create loop in place succeeds exactly when `Creates` does, and then, with the flag set, leaves its count and document; otherwise it fails with the error `Creates` gives |
| AcroFormApply.PdfWriter.CreateLoop | scripts/apply_acroform_patches.py:329-386 | the in-place create loop, started from the writer's state, ends with the run `Creates` gives, or with its error when a patch raises |
| AcroFormApply.PdfWriter.CreateLoopStep | scripts/apply_acroform_patches.py:330-386 | one in-place iteration extends the loop's outcome by its patch: that patch's failure, which is then the whole loop's, or the run after it |
| AcroFormApply.PdfWriter.SetNeedAppearances | scripts/apply_acroform_patches.py:400 | setting the flag in place is `NeedAppearances` |
| AcroFormApply.PdfWriter.AppendWidget | scripts/apply_acroform_patches.py:368-384 | adding a widget in place is `AddWidget` |
| AcroFormApply.PdfWriter.CreateOne | scripts/apply_acroform_patches.py:330-386 | one patch of the create loop in place is `CreateStep` |
| AcroFormApply.PdfWriter.PlaceWidget | scripts/apply_acroform_patches.py:345-386 | placing a widget on a page in place is `CreateOnPage` |
| AcroFormApplyProperties.KeysNeverWritten | scripts/apply_acroform_patches.py:246-317 | the applier never writes /T or /Parent |
| AcroFormApplyProperties.PatchKeepsNames | scripts/apply_acroform_patches.py:227-319 | patching a widget changes no /T and no /Parent anywhere |
| AcroFormApplyProperties.EntryNameStable | scripts/apply_acroform_patches.py:207-215 | an entry's name depends only on /T and /Parent |
| AcroFormApplyProperties.FindPatchStable | scripts/apply_acroform_patches.py:204-217 | the patch found for an entry is the same before and after earlier widgets are patched |
| AcroFormApplyProperties.PositionalIdFindsItsEntry | scripts/apply_acroform_patches.py:164-170 | a patch with the extractor's `p{page}-{idx}` identifier is found for that entry, whatever was indexed before |
| AcroFormApplyProperties.SuffixedIdFindsItsEntry | scripts/apply_acroform_patches.py:173-180 | a patch with a de-duplicated `{base}@{page}-{idx}` identifier is found for that entry |
| AcroFormApplyProperties.NamedIdFindsItsEntry | scripts/apply_acroform_patches.py:204-215 | with the corrected lookup, a patch whose identifier is the stripped /T text is found for that field |
| AcroFormApplyProperties.PaddedNameMissedAsWritten | scripts/apply_acroform_patches.py:215 | as written, a /T with surrounding spaces is never found under the stripped identifier |
| AcroFormApplyProperties.FinderForNameBased | scripts/apply_acroform_patches.py:204-217 | both lookups of the script depend on an entry only through its page, index and names |
| AcroFormApplyProperties.WidgetPatcherKeepsNames | scripts/apply_acroform_patches.py:227-319 | the script's widget update keeps every /T and /Parent |
| AcroFormApplyProperties.EntriesUnfold | scripts/apply_acroform_patches.py:203 | one more entry is one more loop step |
| AcroFormApplyProperties.EntriesKeepNames | scripts/apply_acroform_patches.py:203-321 | no /T or /Parent changes while a page is processed |
| AcroFormApplyProperties.EntriesFindStable | scripts/apply_acroform_patches.py:203-217 | the lookup gives the same answer throughout a page |
| AcroFormApplyProperties.EntryStepEffect | scripts/apply_acroform_patches.py:218-229 | an entry is kept unless hidden, and counted with its identifier recorded exactly when patched |
| AcroFormApplyProperties.EntriesStep | scripts/apply_acroform_patches.py:203-321 | one more entry extends the kept list, the count and the matched set by that entry's effect |
| AcroFormApplyProperties.EntriesKept | scripts/apply_acroform_patches.py:202-225 | the kept list is the page's entries without the hidden ones, in order |
| AcroFormApplyProperties.EntriesCount | scripts/apply_acroform_patches.py:227-228 | the count grows by the number of patched entries only |
| AcroFormApplyProperties.EntriesMatched | scripts/apply_acroform_patches.py:218-229 | the matched identifiers grow by those of patched entries only; a hidden match is not recorded |
| AcroFormApplyProperties.EmptyIndexEntries | scripts/apply_acroform_patches.py:203-321 | with no patches indexed, a page keeps every entry and nothing changes |
| AcroFormApplyProperties.EmptyIndexPages | scripts/apply_acroform_patches.py:192-326 | with no patches indexed, the page pass leaves the document as it was |
| AcroFormApplyProperties.KeptOfIsSubsequence | scripts/apply_acroform_patches.py:202-225 | nothing appears in the kept list that was not on the page, and it is no longer |
| AcroFormApplyProperties.KeptAllIffNoneDropped | scripts/apply_acroform_patches.py:324-326 | the kept list is the whole page exactly when no entry is hidden |
| AcroFormApplyProperties.PageStepEffect | scripts/apply_acroform_patches.py:192-326 | other pages keep their /Annots; this page's becomes the kept list exactly when an entry was hidden; the count grows by the patched entries |
| AcroFormApplyProperties.PagesWithoutAnnots | scripts/apply_acroform_patches.py:192-200 | a document without annotations comes out of the page pass unchanged |
| AcroFormApplyProperties.EntriesNeverApply | scripts/apply_acroform_patches.py:203-321 | a lookup that never applies leaves a page's run unchanged |
| AcroFormApplyProperties.PagesNeverApply | scripts/apply_acroform_patches.py:192-326 | such a lookup keeps every object, the count and the matched set of the whole pass |
| AcroFormApplyCreateProperties.RegisterEffect | scripts/apply_acroform_patches.py:368-385 | a new widget takes a fresh object number, goes last on its page and moves nothing else; it is appended to /Fields and counted when a form exists or in the corrected program; as written, a formless document gets neither; the document stays well formed |
| AcroFormApplyCreateProperties.AddWidgetAsWrittenWithForm | scripts/apply_acroform_patches.py:374-384 | with a form present, the script's registration and the corrected one agree |
| AcroFormApplyCreateProperties.CreateStepSkips | scripts/apply_acroform_patches.py:329-339 | an already matched patch, one that neither asks for creation nor has a `new-` id, and (corrected) a hidden patch create nothing |
| AcroFormApplyCreateProperties.CreateStepFailure | scripts/apply_acroform_patches.py:330-346 | in either program, a create step raises exactly for a non-dictionary (AttributeError), or for a patch that proceeds with a non-string name (AttributeError) or a page `int()` rejects (the TypeError or ValueError `PyIntError` names) |
| AcroFormApplyCreateProperties.CreateOnPageResult | scripts/apply_acroform_patches.py:345-386 | placing a widget never raises; it changes nothing or adds one widget |
| AcroFormApplyCreateProperties.CreateStepResult | scripts/apply_acroform_patches.py:329-386 | a successful create step changes nothing or adds exactly one widget |
| AcroFormApplyCreateProperties.CreateStepCreates | scripts/apply_acroform_patches.py:340-384 | in either program, a patch that proceeds (that program's qualification and a rect of four or more items) with a string name, a page in range and a convertible rect is registered on that page under its stripped name |
| AcroFormApplyCreateProperties.CreateStepGrows | scripts/apply_acroform_patches.py:329-386 | a successful step loses no object, only grows /Fields and counts exactly the widgets added to it; with a form or corrected, that is every new object; as written, a formless document stays formless; the document stays well formed |
| AcroFormApplyCreateProperties.CreatesUnfold | scripts/apply_acroform_patches.py:329 | one more patch is one more step, unless the loop has already raised |
| AcroFormApplyCreateProperties.CreatesCountWidgets | scripts/apply_acroform_patches.py:329-386 | the same over the whole create loop, in either program |
| AcroFormApplyCreateProperties.CreatesFailsAt | scripts/apply_acroform_patches.py:329-386 | the first step that raises decides the outcome of the whole loop |
| AcroFormApplyCreateProperties.PagesKeepWellFormed | scripts/apply_acroform_patches.py:192-326 | the page pass keeps the document well formed |
| AcroFormApplyCreateProperties.ApplyFailsOnNonDictPatch | scripts/apply_acroform_patches.py:159-160 | a non-dictionary anywhere in the patch list ends the run with AttributeError |
| AcroFormApplyCreateProperties.ApplyNoPatches | scripts/apply_acroform_patches.py:145-148 | with no patches, or a patch value that is not a list, only /NeedAppearances is set |
| AcroFormApplyCreateProperties.ApplyKeepsWellFormed | scripts/apply_acroform_patches.py:109-400 | in either program, a successful run leaves a well-formed document with /NeedAppearances true, keeps every input object and the number of pages |
| AcroFormApplyCreateProperties.ApplyCounts | scripts/apply_acroform_patches.py:145-400 | a successful run counts the page pass's patches plus the widgets added to /Fields, and /Fields only grows; as written, a formless document ends with no /Fields entry and the page pass's count |
| AcroFormApplyCreateProperties.SinglePatchIndex | scripts/apply_acroform_patches.py:159-188 | the tables of a one-patch list hold only that patch |
| AcroFormApplyCreateProperties.SinglePatchFinder | scripts/apply_acroform_patches.py:204-217 | so both lookups hand out that patch or nothing |
| AcroFormApplyCreateProperties.SinglePatchRun | scripts/apply_acroform_patches.py:145-400 | a one-patch run is the page pass with its tables, its create step, then /NeedAppearances |
| AcroFormApplyCreateProperties.HiddenPatchPagePass | scripts/apply_acroform_patches.py:218-225 | with a hiding patch alone, the page pass keeps every object and applies, counts and records nothing |
| AcroFormApplyCreateProperties.HiddenPatchCreatedAsWritten | scripts/apply_acroform_patches.py:329-386 | as written, a hiding patch that qualifies for creation adds a new visible widget, last on its page |
| AcroFormApplyCreateProperties.HiddenPatchSkippedWhenCorrected | scripts/apply_acroform_patches.py:329-339 | corrected, the same patch changes no object, counts nothing and leaves /Fields |
| AcroFormApplyCreateProperties.FormlessWidgetOrphanedAsWritten | scripts/apply_acroform_patches.py:374-385 | on a document without /AcroForm and annotations, both programs place the new widget alone on its page; as written /Fields stays empty and the count is 0, corrected /Fields is that widget and the count is 1 |
| AcroFormApplyCreateProperties.FormlessRun | scripts/apply_acroform_patches.py:374-385 | the same, one program at a time, for any patcher and widget maker |
| AcroFormApplyCreateProperties.PaddedPagePass | scripts/apply_acroform_patches.py:204-217 | on a single widget whose /T has surrounding spaces, the page pass patches it only when corrected |
| AcroFormApplyCreateProperties.PaddedNameAppliedOnlyWhenCorrected | scripts/apply_acroform_patches.py:215 | the whole run with that patch counts 0 as written and 1 corrected |
| AcroFormApplyCreateProperties.PaddedRun | scripts/apply_acroform_patches.py:215 | the same, one program at a time, for any patcher and widget maker |

## Left out

- PDF bytes and pypdf: reading, `writer.append`, object numbering and `write` are not modelled. The document is the abstract `Pdf.Doc`, the patch file's JSON is a decoded `Value`, and the result is the final `Doc`, not bytes.
- Indirect values other than dictionaries: a reference that does not name a dictionary does not resolve. A /Parent is always a reference (section 12.7.3.1 of ISO 32000-1). Byte-string names are decoded before the model sees them.
- Appearance regeneration (`update_page_form_field_values`, scripts/apply_acroform_patches.py:389-398): a best-effort library call with no modelled effect. Only the /NeedAppearances flag that follows it is modelled.
- The command-line `main` of both scripts: argument parsing, file checks, base64 input and the dry-run JSON output are I/O.
- The file and subprocess plumbing of the PHP side is not modelled: the apply-script listener, running the extractor, temp files, the HTTP fetch of a PDF URL and the dependency checks. Their results are parameters: the extractor's outcome (`ExtractorConfig.run`) and the downloaded contents (`PdfRuntime.download`).
- Regular expressions, `parse_url`, `filter_var`, DNS and `JSON.parse`: parameters (`UrlRuntime`, the `parse` argument of `EditorConfig`). The full pattern of `parse_font_size_from_da` and the document-key pattern are written out.
- Floating-point formatting and parsing: `%.1f`, Python `str()` and `float()`, and PHP float casts are the oracle functions of `PyRuntime`, `ExtractRuntime` and `PhpRuntime`. Arithmetic is exact.
- AcroFormExtract.Info: `round(width, 2)` and `round(height, 2)` are not modelled. Width and height are the exact `max(0, …)` values.
- MoveResize.ViewportPixelsToPdfRect: answers `None` for a scale of 0, where the script divides by zero and produces non-finite numbers.
- SignatureType: `usort` under `sort_boxes` is not modelled, only its comparator. `CompareKeysNotTransitive` shows that the comparator is not transitive (y values within 0.0001 chain), so PHP gives no defined order to sort against.
- `SignatureBoxModel` serialisation is a type parameter of `SignatureCoordinatesModel`, with its own `toArray` and `fromArray`. The file that defines it does not define those methods.
- The getters of `AcroFormApplyRequestEvent` are plain field reads of the class, and it has no further contract.
- `PythonProcessEnv`: `getenv()` is a parameter. The final `array_filter` drops `false` values, and `getenv` returns no such values.
- The `grouped()` literal of `DemoMenu` is a parameter.
- PHP array order: PHP arrays are maps. Where order matters (`toArray` output, the merge result) the model proves the set of keys and their values, not key order.
- The editor's DOM and UI glue is not modelled: overlays, drag and rotate handlers, thumbnails, zoom, colours, `getRotatedAabbSize`. This includes the `onMove` event plumbing, but not its clamping arithmetic, which is modelled.
- The Symfony form, DI, Twig and translation wiring, `scripts/validate-translations-yaml.php`, `scripts/process_modified_pdf.py` and `scripts/PoC/` are not modelled.
- Debug logging and messages printed to stderr are not modelled.
- Non-finite numbers: a decoded JSON value's `Float` is an exact real, so `Infinity`, `NaN` and the OverflowError that Python's `int()` raises for an infinite float are not representable. `float()` of a JSON integer is exact, so the OverflowError Python raises beyond the double range (magnitude above about 1.8e308) is not modelled either.
- Unicode lower-casing: Python's `str.lower` is `Text.PyLower`, which lowers the ASCII capitals and U+212A KELVIN SIGN. It keeps every other character, which changes no comparison with the ASCII words the script looks for (their Python lower case is not plain ASCII).
- Unicode digits: Python's `int()` and the `\d` of `parse_font_size_from_da` are modelled on ASCII digits only; the other decimal digits Python accepts are not.
- SignatureCoordinatesModel.FromArray: the box loop reads `signature_boxes` through `PhpValues`, which visits the keys `0` to `n-1` in that order. For an associative array, the values under other keys are not visited, and insertion order is not modelled.
- SignatureCoordinatesModel.BoxesOfArrays: the same `PhpValues` reading of the box array; "one box per entry" is about those values.
- AcroFormFieldEdit.OptionsText: the `foreach` over `options` is read through `PhpValues`, so an associative options array's values under other keys give no line.
- AcroFormFieldEdit.FromArray: inherits that reading of `options`.
- AcroFormOverridesController.RequestFields: the request's `fields` array is read through `PhpValues` in the same way.
- SignatureType.UniqueNameViolations: the violations carry the box's position in the list, where PHP reports its `$index` key (src/Form/SignatureCoordinatesType.php:266). The two agree for a list, which is what the form submits; they differ once a collection entry has been removed.
- SignatureType.Listed: keeps the position in the same way, where PHP keeps the `$index` key (src/Form/SignatureCoordinatesType.php:287).
- SignatureType.OverlapViolations: reports positions in the same way, where PHP reports `$list[$j]['index']` (src/Form/SignatureCoordinatesType.php:298).
- SignatureOverlap.OverlapReportedIff: is about positions in the same way.
- SignatureType.MergeNamedConfig: `array_merge` renumbering of integer keys is not modelled (a key is a string), and a boolean or float `config` option is cast to a key as PHP casts array keys. An array-valued `config` option is modelled as naming no config, where PHP 8's `isset` raises a TypeError for an array offset.
- AcroFormPatchWidget.RectArray: `float()` of a JSON integer is exact. For an integer beyond the double range Python raises OverflowError, which the `except (TypeError, ValueError)` of scripts/apply_acroform_patches.py:238-249 does not catch, so the run ends; the model writes the value as a coordinate instead.
- AcroFormPatchWidget.DaText: the same for an integer `fontSize` beyond the double range (scripts/apply_acroform_patches.py:312-318): Python ends the run, and the model writes a clamped size.
- SignableUtils.Factor: a unit is looked up among the five own keys of `PT_TO_UNIT` only. For a unit that names a key inherited from `Object.prototype` (`constructor`, `toString`, `__proto__`, …), `PT_TO_UNIT[unit] ?? 1` is a function or an object and the conversion gives NaN; the model gives the factor 1.
- SignableUtils.UnknownUnitIsIdentity: holds in the source for every unknown unit except those inherited keys, for which the conversion gives NaN.
- AcroFormOverridesController.MergeStoredLoop: `array_merge` renumbers integer keys, and PHP stores a JSON object key such as `"0"` as an integer key. For such keys it appends the stored value after the base's, under a new number; the model keys are strings, so the stored value replaces the base's.
- AcroFormOverridesController.MergeOverrides: inherits that reading of `array_merge`.
- AcroFormOverridesController.StoredKeysWin: is about string keys; for integer-like keys `array_merge` keeps both values, renumbered.
- AcroFormOverridesController.LoadOverrides: a keyed `fields` array from the request is written back as a list of its values, and JSON key order of the answer is not modelled.

## Findings

| source | as written | input that shows it | evidently intended | confidence | as-written member | corrected member |
|---|---|---|---|---|---|---|
| scripts/apply_acroform_patches.py:215 | the name table is looked up under the raw /T text, while the extractor reports the stripped text as the field's identifier (scripts/extract_acroform_fields.py:187) | a widget with /T `" A "`, and the patch `{"fieldId": "A"}` that carries the identifier the extractor reported for it | a patch carrying the identifier the extractor produced finds its widget | medium, not executed | `AcroFormApply.FindPatchAsWritten`, `AcroFormApplyProperties.PaddedNameMissedAsWritten`, `AcroFormApplyCreateProperties.PaddedNameAppliedOnlyWhenCorrected` | `AcroFormApply.FindPatch`, `AcroFormApplyProperties.NamedIdFindsItsEntry`, `AcroFormApplyCreateProperties.PaddedRun` |
| scripts/extract_acroform_fields.py:187-190 | a repeated identifier gets `@{page}-{idx}` appended, but the suffixed form is not checked against the identifiers already emitted | fields named `"A"`, `"A@1-2"`, `"A"` on page 1, entries 0, 1 and 2: the third becomes `"A@1-2"`, which the second already holds | every identifier of one pass is distinct, since the applier uses them as keys | high, not executed | `AcroFormExtract.AssignIdAsWritten`, `AcroFormExtract.ExtractIdRepeats` | `AcroFormExtract.AssignId`, `AcroFormExtract.ExtractIdsUnique` |
| scripts/apply_acroform_patches.py:329-339 | the create loop skips only ids in the matched set, and a hidden match is never added to it (lines 219-220) | the patch `{"fieldId": "new-1", "hidden": true, "rect": [0, 0, 10, 10]}` | a patch that asks to hide a field does not create a visible one | medium, not executed | `AcroFormApply.CreateQualifiesAsWritten`, `AcroFormApplyCreateProperties.HiddenPatchCreatedAsWritten` | `AcroFormApply.CreateQualifies`, `AcroFormApplyCreateProperties.HiddenPatchSkippedWhenCorrected` |
| scripts/apply_acroform_patches.py:381-385 | for a document without /AcroForm, a plain `dict` is stored into the catalog; pypdf's dictionary refuses a non-PDF value with ValueError, which the handler on line 385 swallows | a document without /AcroForm and one patch `{"fieldId": "new-1", "rect": [0, 0, 10, 10], "page": 1}` | the new widget is also registered in a new /AcroForm /Fields and counted, as the code's branch intends | medium, not executed | `AcroFormApply.AddWidgetAsWritten`, `AcroFormApplyCreateProperties.FormlessWidgetOrphanedAsWritten` | `AcroFormApply.AddWidget`, `AcroFormApplyCreateProperties.FormlessRun` |
| scripts/extract_acroform_fields.py:46-47 | `_str_val` returns any `str` as it is, and pypdf's name objects are `str` subclasses, so the /Subtype name `/Widget` keeps its slash and the test on line 134 never matches; the slash removal on line 54 is never reached for names | any widget annotation with `/Subtype /Widget`, as section 12.5.2 of ISO 32000-1 requires | names lose their leading slash, as the function's docstring says (line 39), so widgets are listed | medium, not executed (the library's class hierarchy is assumed) | `AcroFormExtract.StrVal`, `AcroFormExtract.NameSubtypesExtractNothing` | `AcroFormExtract.DropSlash`, `AcroFormExtract.NameSubtypeDescribed` |
| src/Controller/AcroFormOverridesController.php:638 | the PDF lookup of `loadOverrides` reads `$this->proxyUrlAllowlist` and calls `$this->isUrlAllowedByAllowlist()`, neither of which the controller declares (its constructor, lines 81-105, takes no allowlist), so PHP throws an Error | a load body `{"document_key": "doc1", "pdf_url": "https://example.com/a.pdf"}` without `fields` | the URL is checked by the validator's allowlist and SSRF guard, as `apply` does (lines 406-416), then fetched and extracted | high, not executed | `AcroFormOverridesController.LoadPdf`, `AcroFormOverridesController.LoadCrashesAsWritten` | `AcroFormOverridesController.LoadPdfAgreesWithApply` |
