# PrintUtil, modelled in Dafny

`PrintUtil` sends a file to a named print device and picks its method by the
file's type:
- JPEG, GIF and PNG images go to the device as they are.
- A PDF is rendered page by page to temporary PNG images. Each image is
  printed in landscape and then deleted.
- Word and Excel documents are printed through their Office applications.
- A PowerPoint deck is exported to a PDF by PowerPoint, that PDF is printed
  through `print` again, and then it is deleted.

Three overloads of `print` differ from the main one: `print(filePath)`
targets the default device, and the two `AfterPrint` overloads run a hook
once `print` has returned.

The model has these modules:

- `Paths`: the string rules applied to file paths.
  - The file type, as `filePath.replaceAll(".*\\.", "")` leaves it. This is
    modelled in general: Java's `.` does not match line terminators, so the
    regex works line by line.
  - The parent and name of a `java.io.File`, under the Unix rules.
  - The name of a page's temporary image.
  - The path of a deck's exported PDF.
- `Dispatch`: the chain of `equalsIgnoreCase` tests that selects a
  `Handler`. It is proved equal to a lookup of the case-folded type in a table.
- `Devices`: the loop that finds the first device with the requested name.
- `Runs`: what one call does, written as functions.
  - The outside world is an `Env` value, which holds:
    - the device list and the default device;
    - the working directory;
    - the jobs the spooler rejects;
    - the PDFs PDFBox can load, with a page that fails to render or write;
    - the documents whose automation fails, and at which step.
  - A call yields a `Run`: its outcome (a normal return or the exception
    thrown) and the list of effects it caused, in order. The effects are
    submissions, temporary images written, files deleted, Office
    launch/open/print/export/close/quit, and the hook.
  - `FilesAfter` applies a list of effects to the set of existing files.
- `Properties`: lemmas about those runs. They cover which handler runs,
  device resolution, the page loop's order and cleanup, the Office
  applications' quit discipline, the PowerPoint round trip and the hook.
- `Printing`: class `PrintUtil`. Its `log` and `files` fields are the effect
  log and the file set. Its methods mirror the Java methods:
  - the device loop;
  - the page loop, with its invariants;
  - the Office sequences.

  Each method is proved to leave exactly the outcome, log and files that its
  `Runs` function gives. The properties proved in `Properties` therefore hold
  of the methods.

## Behaviour of the code worth knowing (the model follows it)

- **Unknown file type.** `print` does not reject a type outside the eleven
  it knows. It falls through the chain and returns normally having done
  nothing (`Properties.UnknownTypeDoesNothing`).
- **Leftover temporary image.** The page loop deletes its image outside any
  `finally`, and `ImageIO.write` first deletes any file at the image's path,
  then creates the file, then writes it (`Properties.PdfStopsAtFault`):
  - When the image file was created but writing it failed, that file stays.
  - When the image file could not be created, a file that had its name is
    gone.
  - When the page could not be rendered, nothing at that path changes.
  - A successful turn overwrites and then deletes an existing file of the
    image's name (see the next bullet for where that is).
- **Where the page images go.** Page i's image is the text of the PDF's
  `getParent()`, a separator, then `temp_i.png` (`Paths.TempPath`). For a PDF
  named with a directory that is next to the PDF. For a PDF named without one,
  such as "report.pdf", `getParent()` is null and the image is
  "null/temp_i.png", in a directory called "null" under the working directory
  (`Paths.ParentlessTempPath`). Unless that directory exists, creating the
  image fails, `printPDF` swallows the exception, and nothing is printed.
- **Word left running.** In `printWord`, a failure when starting Word or
  opening the document escapes before the `try`, and a started Word is
  never quit (`Properties.WordQuitsOnceOpened`).
- **PowerPoint close failure.** In `printPPT`, a failing `Close` in the
  `finally` block throws past `Quit`, and the exported PDF stays. PowerPoint
  is quit exactly when it was started and `Close` did not fail
  (`Properties.ExportFailures`, `Properties.CloseFaultKeepsPdf`).
- **Export location.** The exported PDF's path is the text of the deck's
  parent's absolute path, then the deck's name and ".pdf", with no separator
  in between (see Findings). The model of `printPPT` uses this path as the
  code builds it (`Paths.PptExportPathAsWritten`). Where it lands depends on
  how the deck's directory is written:
  - For a directory such as "/d", the deck "/d/x.ppt" is exported to
    "/dx.ppt.pdf", beside "/d" rather than inside it
    (`Paths.PptExportAsWrittenLeavesDirectory`).
  - For the root, the deck "/x.ppt" is exported to "/x.ppt.pdf", inside the
    deck's directory (`Paths.AsWrittenAgreesAtRoot`).
  - For a deck named relative to the working directory `cwd`, as
    "dir/x.ppt", the export is "dir" + "x.ppt.pdf" in `cwd`
    (`Paths.AsWrittenRelativeDirectory`,
    `Paths.AsWrittenRelativeLandsInWorkingDirectory`). java.io.File keeps "."
    and ".." segments, so "./x.ppt" is exported to the hidden file
    ".x.ppt.pdf" in its own directory, and "../x.ppt" to "..x.ppt.pdf" in a
    child of its directory.

  The nested print then writes its page images next to the exported PDF.
- **Failed nested print.** When printing the exported PDF fails, the
  exception is caught and the deletion is skipped
  (`Runs.PrintAndDeleteEvents`). Within this model the nested print never
  fails: the export ends in ".pdf" (`Runs.ExportIsNotOffice`), and such a
  type never makes `print` throw on a device that was already found
  (`Properties.NestedPrintReturns`).
- **Temporary names.** The code always uses `temp_<page>.png` under the PDF's
  `getParent()` text. Within one run the names differ (`Paths.TempPathsDistinct`),
  but they are the same across runs.

## Model

| member | source | states |
|---|---|---|
| `Paths.AfterLastDot` | PrintUtil.java:91 | what the greedy `.*\.` leaves of one line: the text after its last dot, or the whole line; its properties are `AfterLastDotIsSuffix` |
| `Paths.ExtensionOf` | PrintUtil.java:91 | `replaceAll(".*\\.", "")`: each line loses everything up to and including its last dot, and the line terminators stay; its properties are `ExtensionOfSingleLine` and `ExtensionHasNoDot` |
| `Paths.FirstTerminator` | PrintUtil.java:91 | the position of the first line terminator, which ends the first line the regex rewrites; no earlier character is a terminator |
| `Paths.AfterLastDotIsDotFreeSuffix` | PrintUtil.java:91 | what `.*\.` leaves of one line is a dot-free suffix of it |
| `Paths.AfterLastDotFollowsLastDot` | PrintUtil.java:91 | that suffix is the whole line exactly when the line has no dot, and otherwise the line's last dot comes right before it |
| `Paths.AfterLastDotIsSuffix` | PrintUtil.java:91 | what `.*\.` leaves of one line is a dot-free suffix of it; it is shorter than the line exactly when the line has a dot, and then the last dot comes right before it |
| `Paths.ExtensionOfSingleLine` | PrintUtil.java:91 | on a path with no line terminator, the file type is the text after the last dot, or the whole path when there is no dot |
| `Paths.ExtensionHasNoDot` | PrintUtil.java:91 | the file type of any path, terminators included, contains no dot |
| `Paths.AfterLastDotIgnoresPrefix` | PrintUtil.java:91 | text in front of a line that holds a dot does not change what the regex leaves of that line |
| `Paths.FirstTerminatorIs` | PrintUtil.java:91 | a terminator with none before it is the first one |
| `Paths.ExtensionOfEndsWith` | PrintUtil.java:91 | when a path ends in a line with a dot, the file type ends with that line's text after its last dot, whatever comes before |
| `Paths.PdfFileTypeEndsInF` | PrintUtil.java:91 | any path ending in ".pdf" has a non-empty file type whose last character is 'f' |
| `Paths.TempPath` | PrintUtil.java:205 | the parent's text ("null" when there is none), the separator, "temp_", the page number and ".png"; different pages get different names (`TempPathsDistinct`) |
| `Paths.DecimalRoundTrip` | PrintUtil.java:205 | the page number written into a temporary name reads back as the same number |
| `Paths.TempPathsDistinct` | PrintUtil.java:205 | in one directory, two pages with the same temporary file are the same page |
| `Paths.DecimalHasNoSeparator` | PrintUtil.java:205 | the decimal text of a page index contains no separator |
| `Paths.ParentlessTempPath` | PrintUtil.java:205 | a PDF named without a directory has no parent, and its page image lies in a directory called "null" under the name temp_i.png |
| `Paths.LastIndexOf` | PrintUtil.java:205 | `lastIndexOf`, used by `getParent`/`getName`: the result holds the character and no later position does; None exactly when the character is absent |
| `Paths.ParentOf` | PrintUtil.java:205 | `getParent()` under the Unix rules: the text before the last separator, the root for a file directly under it, None (null) when there is no parent (no separator, or the root itself) |
| `Paths.NameOf` | PrintUtil.java:291 | `getName()`: the text after the last separator |
| `Paths.Resolve` | PrintUtil.java:291 | how java.io.File puts a child path under a parent: with a separator between them, none after the root, the parent alone for an empty child |
| `Paths.AbsolutePath` | PrintUtil.java:291 | `getAbsolutePath()`: an absolute path unchanged, a relative one resolved against the working directory |
| `Paths.PptExportPathAsWritten` | PrintUtil.java:291 | as the code builds it: None when the deck has no parent; otherwise the absolute form of the parent's absolute path + name + ".pdf", with no separator before the name (`AsWrittenJoinsWithoutSeparator`) |
| `Paths.PptExportPath` | PrintUtil.java:291 | the corrected export path: name + ".pdf" resolved inside the parent's absolute path (`PptExportStaysInDirectory`) |
| `Paths.PptExportStaysInDirectory` | PrintUtil.java:291 | corrected, a deck in an absolute directory is exported into that same directory, under its own name followed by ".pdf" |
| `Paths.LastIndexOfIsLast` | PrintUtil.java:291 | an occurrence with no later occurrence is the one `lastIndexOf` finds |
| `Paths.ResolveLandsInDirectory` | PrintUtil.java:291 | a separator-free name put under a directory has that directory as parent and that name as name |
| `Paths.NameHasNoSeparator` | PrintUtil.java:291 | `getName()` never contains the separator |
| `Paths.AsWrittenJoinsWithoutSeparator` | PrintUtil.java:291 | for a deck in an absolute directory, the export path as written is the directory text, the name and ".pdf" with nothing in between |
| `Paths.AsWrittenAgreesAtRoot` | PrintUtil.java:291 | for a deck directly under the root the as-written export is "/" + name + ".pdf", the same as the corrected one |
| `Paths.AsWrittenRelativeDirectory` | PrintUtil.java:291 | for a deck named "dir/name" relative to the working directory, the as-written export is the working directory, a separator, then dir + name + ".pdf" |
| `Paths.AsWrittenRelativeLandsInWorkingDirectory` | PrintUtil.java:291 | that export lies in the working directory under the name dir + name + ".pdf" (so "./x.ppt" gives the hidden ".x.ppt.pdf") |
| `Paths.PptExportAsWrittenLeavesDirectory` | PrintUtil.java:291 | the deck "/d/x.ppt" is exported, as written, to "/dx.ppt.pdf", whose parent is "/" and not "/d" |
| `Dispatch.Fold` | PrintUtil.java:92 | the lower-case ASCII letter a character matches under `equalsIgnoreCase`: A-Z, the dotted and dotless I, the long s and the Kelvin sign; any other character is unchanged |
| `Dispatch.EqualsIgnoreCase` | PrintUtil.java:92 | `lit.equalsIgnoreCase(s)` for a lower-case ASCII literal: equal lengths, and each character folds to the literal's |
| `Dispatch.Classify` | PrintUtil.java:92-134 | the eleven tests in the code's order, each selecting its handler, then NoOp; `ClassifyIsLookup` and `ClassifyCases` state what it selects |
| `Dispatch.EqualsIgnoreCaseIsFoldedEquality` | PrintUtil.java:92 | `lit.equalsIgnoreCase(s)` for a lower-case literal holds exactly when `s`, case-folded, equals `lit` |
| `Dispatch.ClassifyIsLookup` | PrintUtil.java:92-134 | the chain selects, for every type, the handler a lookup of the folded type in the eleven-entry table gives, and NoOp for every type not in the table; so the chain is total and picks exactly one handler |
| `Dispatch.ClassifyIgnoresCase` | PrintUtil.java:92-134 | two types that fold to the same text select the same handler |
| `Dispatch.ClassifyCases` | PrintUtil.java:92-134 | each handler, in both directions: JPEG for jpg/jpeg, GIF for gif, PNG for png, the PDF loop for pdf, Word for doc/docx, Excel for xls/xlsx, PowerPoint for ppt/pptx, nothing for any other folded type |
| `Dispatch.ClassifyEndingInF` | PrintUtil.java:100-107 | a type whose last character is 'f' selects only the GIF, PDF or no handler |
| `Devices.FirstNamed` | PrintUtil.java:82-87 | the index of the first device whose name equals the request exactly; None exactly when no device has that name |
| `Devices.FindDevice` | PrintUtil.java:80-87 | the loop over the device list, breaking at the first match, returns that first index, or None |
| `Runs.ExportIsNotOffice` | PrintUtil.java:315 | the type of the as-written exported PDF selects the GIF, PDF or no handler, so the nested print never comes back to `printPPT`, Word or Excel |
| `Runs.SubmitEvents` | PrintUtil.java:176-191 | `normalPrint`: nothing without a service, otherwise one submission, whose refusal is swallowed |
| `Runs.PageEvents` | PrintUtil.java:205-209 | one clean loop turn: write the page's image, submit it in landscape, delete it |
| `Runs.PagesEvents` | PrintUtil.java:204-210 | the first n turns, in page order |
| `Runs.CompletedPages` | PrintUtil.java:204-207 | the number of pages the loop completes: all of them, or those before the failing page |
| `Runs.StoppedTurn` | PrintUtil.java:206-207 | the file effects of the turn a failure ends: none for a render failure, the deletion of the old file when the image cannot be created, the image file when it cannot be written |
| `Runs.PdfEvents` | PrintUtil.java:199-217 | `printPDF`: nothing for a PDF that cannot be loaded, otherwise the completed turns and then the failed turn's effects; it never throws |
| `Runs.WordRun` | PrintUtil.java:225-255 | `printWord`: an empty path returns at once; a launch or open failure escapes with Word not quit; a `PrintOut` or `Close` failure is caught; `Quit` follows an open |
| `Runs.ExcelRun` | PrintUtil.java:262-282 | `printExcel`: an empty path returns at once; only a launch failure escapes; the first failing step inside the `try` ends the sequence; `Quit` always follows a launch |
| `Runs.ExportRun` | PrintUtil.java:292-313 | the export: failures are rethrown after `Close` (when opened) and `Quit` (when launched); a failing `Close` skips `Quit` and leaves the PDF |
| `Runs.PptRun` | PrintUtil.java:289-321 | `printPPT`: a null reference for a deck with no parent, otherwise export to the as-written path and print it |
| `Runs.ExportAndPrintRun` | PrintUtil.java:292-320 | a failed export is rethrown; after a clean one the PDF is printed and deleted, and the call returns normally |
| `Runs.PrintAndDeleteEvents` | PrintUtil.java:314-319 | the nested `print` of the PDF, then its deletion unless that print threw |
| `Runs.PrintRun` | PrintUtil.java:79-137 | `print(filePath, deviceName)`: "Device not found" before anything else, otherwise the handler `Classify` selects |
| `Runs.PrintToDefaultRun` | PrintUtil.java:57-61 | `print(filePath)`: a null reference with no default device, otherwise `print` on its name |
| `Runs.WithHook` | PrintUtil.java:146-149 | the `AfterPrint` overloads: the hook is appended after a normal return only |
| `Properties.TempSetHoldsEarlierPages` | PrintUtil.java:204-210 | page i's image is among those of the first n turns exactly when i < n, so a later page's image is never one the loop already deleted |
| `Properties.PageLeavesNoFile` | PrintUtil.java:205-209 | one turn of the page loop removes its image and changes no other file, whatever the spooler did |
| `Properties.TempSetGrows` | PrintUtil.java:204-210 | one more turn removes exactly that turn's image besides those of the earlier turns |
| `Properties.PagesLeaveNoFile` | PrintUtil.java:204-210 | after n turns none of their images exists and no other file has changed |
| `Properties.PageSubmitsItsImage` | PrintUtil.java:205-208 | each turn submits exactly one job: its own image, in landscape, with the given flavour, to the service |
| `Properties.PagesSubmitInOrder` | PrintUtil.java:204-210 | n turns submit n jobs; job k is page k's image, in landscape |
| `Properties.LoopStops` | PrintUtil.java:204-215 | a loop that fails on page i ends the method with the pages before i done, then the effects of page i's failed turn |
| `Properties.LoopCompletes` | PrintUtil.java:204-210 | a loop that runs out of pages has done every page |
| `Properties.PagesLength` | PrintUtil.java:204-210 | with a service, each turn has three effects |
| `Properties.PageTurnInPlace` | PrintUtil.java:204-210 | turn i is effects 3i to 3i+2: write page i's image, submit it, delete it, all before the next page starts |
| `Properties.PagesWithoutServiceSubmitNothing` | PrintUtil.java:180 | with a null service the loop submits nothing |
| `Properties.NullServiceSubmitsNothing` | PrintUtil.java:176-191 | `normalPrint` with a null service has no effect, and a PDF printed to a null service submits nothing |
| `Properties.DeviceNotFoundIffNoMatch` | PrintUtil.java:80-90 | `print` throws "Device not found" exactly when no device has the requested name; it then has no effects at all |
| `Properties.ResolvedDeviceFailures` | PrintUtil.java:91-137 | once the device is found, `print` throws only a null reference (a deck with no parent) or an Office automation failure |
| `Properties.PptFailures` | PrintUtil.java:289-321 | `printPPT` throws only for a deck without a parent or when PowerPoint fails; a failed export leaves no PDF unless `Close` was what failed |
| `Properties.ExportFailures` | PrintUtil.java:294-313 | the export fails only through PowerPoint; it succeeds exactly when no automation step fails; a failed export has saved the PDF exactly when `Close` failed; PowerPoint is quit exactly when neither starting it nor `Close` failed |
| `Properties.CloseFaultKeepsPdf` | PrintUtil.java:299-313 | when `Close` fails, the saved PDF exists afterwards and no other file has changed |
| `Properties.UnknownTypeDoesNothing` | PrintUtil.java:91-137 | an unsupported type on a found device returns normally with no effect: no submission, no file touched |
| `Properties.RasterSubmitsOnce` | PrintUtil.java:92-111 | a JPEG, GIF or PNG is submitted once, as itself, in portrait, with its own flavour, to the found device; no file changes |
| `Properties.PdfPrintsEveryPage` | PrintUtil.java:199-210 | a readable PDF of N pages gives N jobs in page order, each page k's `temp_k.png` in landscape as PNG; afterwards no page image exists and no other file has changed |
| `Properties.PdfPageTurn` | PrintUtil.java:204-210 | in a readable PDF, page k's image is written, submitted and deleted as effects 3k, 3k+1 and 3k+2 |
| `Properties.StoppedPdfRun` | PrintUtil.java:200-215 | a PDF whose page k fails: print returns normally with the first k turns followed by the failing turn's own effects |
| `Properties.StoppedLoopJobs` | PrintUtil.java:204-210 | a loop stopped on page k submitted k jobs, job j being page j's image in landscape |
| `Properties.StoppedLoopFiles` | PrintUtil.java:204-210 | a loop stopped on page k leaves no image of pages before k, and page k's image as its fault leaves it |
| `Properties.PdfStopsAtFault` | PrintUtil.java:204-215 | a failure on page k returns normally after k submissions, job j being page j's landscape image; the earlier images are gone; page k's image exists afterwards exactly when it was created but not written, or when rendering failed and a file of that name already existed |
| `Properties.OfficeKeepsFiles` | PrintUtil.java:225-282 | printing through Word or Excel creates and deletes no file |
| `Properties.ExportCreatesPdf` | PrintUtil.java:299-300 | a clean export adds the PDF and changes no other file |
| `Properties.OfficeEmptyPathDoesNothing` | PrintUtil.java:226-228 | `printWord` and `printExcel` return at once on an empty path, with no effect |
| `Properties.WordQuitsOnceOpened` | PrintUtil.java:229-254 | Word is quit exactly when the document was opened, and the call then returns normally; Word is started and never quit exactly when opening the document fails |
| `Properties.ExcelAlwaysQuits` | PrintUtil.java:266-281 | once Excel has started it is always quit, as the last effect; `printExcel` throws only when Excel cannot start |
| `Properties.NestedPrintReturns` | PrintUtil.java:100-107 | a GIF, a PDF or an unknown type on a found device never makes `print` throw |
| `Properties.CleanPptRun` | PrintUtil.java:289-321 | after a clean export, `print` of a deck returns normally and its effects are the export, the nested print of the PDF (which returns normally), then the PDF's deletion |
| `Properties.PptRemovesExport` | PrintUtil.java:289-321 | after a clean export, `print` of a deck returns normally, PowerPoint was quit, the last effect deletes the PDF, and the PDF no longer exists |
| `Properties.PrintRunHasNoHook` | PrintUtil.java:79-137 | `print` itself never runs the hook, not even through the nested print of an exported deck |
| `Properties.HookOnceAfterNormalReturn` | PrintUtil.java:146-149 | the hook runs exactly once, last, after a normal return, and never after an exception; the outcome is passed on |
| `Properties.PrintHookRunsOnce` | PrintUtil.java:146-149 | `print(filePath, deviceName, afterPrint)` runs the hook once when `print` returns normally and never when it throws |
| `Properties.PrintToDefaultHookRunsOnce` | PrintUtil.java:69-72 | `print(filePath, afterPrint)` runs the hook once when `print(filePath)` returns normally and never when it throws |
| `Printing.PrintUtil.NormalPrint` | PrintUtil.java:176-191 | with a service, appends one submission with the requested orientation, whether or not the spooler accepts it; with none, nothing; no file changes |
| `Printing.PrintUtil.NormalPrintPortrait` | PrintUtil.java:165-167 | the same, in portrait |
| `Printing.PrintUtil.NormalPrintToDefault` | PrintUtil.java:157-162 | the same, in portrait, on the default service |
| `Printing.PrintUtil.PrintPdf` | PrintUtil.java:199-217 | the loop leaves the log and files of `PdfEvents`, so the page-loop properties above hold of it |
| `Printing.PrintUtil.PrintPage` | PrintUtil.java:205-209 | one loop turn stops exactly when its page has the failure; then it has the effects of `StoppedTurn`, otherwise it writes, submits and deletes its image |
| `Printing.PrintUtil.PrintWord` | PrintUtil.java:225-255 | outcome and log are those of `WordRun`; no file changes |
| `Printing.PrintUtil.PrintExcel` | PrintUtil.java:262-282 | outcome and log are those of `ExcelRun`; no file changes |
| `Printing.PrintUtil.ExportPpt` | PrintUtil.java:292-313 | outcome, log and files are those of `ExportRun` |
| `Printing.PrintUtil.PrintPpt` | PrintUtil.java:289-321 | outcome, log and files are those of `PptRun` |
| `Printing.PrintUtil.ExportAndPrint` | PrintUtil.java:292-320 | outcome, log and files are those of `ExportAndPrintRun` |
| `Printing.PrintUtil.PrintAndDelete` | PrintUtil.java:314-319 | log and files are those of `PrintAndDeleteEvents`: the nested print, then the deletion unless that print failed |
| `Printing.PrintUtil.Print` | PrintUtil.java:79-137 | outcome, log and files are those of `PrintRun`, so every `Properties` lemma about `PrintRun` holds of it |
| `Printing.PrintUtil.PrintToDefault` | PrintUtil.java:57-61 | outcome, log and files are those of `PrintToDefaultRun`: a null reference with no default device, otherwise `print` on the default device's name |
| `Printing.PrintUtil.PrintWithHook` | PrintUtil.java:146-149 | `print`'s outcome, log and files, with the hook appended after a normal return |
| `Printing.PrintUtil.PrintToDefaultWithHook` | PrintUtil.java:69-72 | the same around `print(filePath)` |

## Findings

| source | as written | input that shows it | evidently intended | confidence | as-written member | corrected member |
|---|---|---|---|---|---|---|
| PrintUtil.java:291 | the exported PDF's path is the parent's absolute path, then the deck's name, then ".pdf", with no separator in between | the deck "/d/x.ppt" is exported to "/dx.ppt.pdf", a file in "/" named "dx.ppt.pdf" | "/d/x.ppt.pdf", next to the deck, as `new File(parent, name + ".pdf")` would give | high, not executed | `Paths.PptExportAsWrittenLeavesDirectory` | `Paths.PptExportStaysInDirectory` |

The as-written path is `Paths.PptExportPathAsWritten`. The model of
`printPPT` uses it, so every property of `printPPT` is proved of the code as
it stands. The corrected path is `Paths.PptExportPath`, and
`Paths.PptExportStaysInDirectory` proves that it lies in the deck's
directory under the name name + ".pdf". For a deck directly under the root
the missing separator does no harm: there the two paths are the same
(`Paths.AsWrittenAgreesAtRoot`).

## Left out

- The Java print API (`PrintServiceLookup`, `createPrintJob`, attribute sets, `job.print`).
  - A submission is an effect whose acceptance is an input (`Env.rejected`).
  - The device list of `getDeviceList` is `Env.devices`.
  - The nested print of an exported deck sees the same device list as the outer call; the code enumerates the devices again.
- PDFBox and ImageIO.
  - A PDF is its page count plus at most one failing page (`Env.pdfs`); a file that cannot be loaded is absent from the map.
  - The bitmap contents and the 96 dpi resolution are not modelled.
  - The `PDDocument` the code never closes is not modelled either.
  - Whether a page's image can be created is an input (a `CreateFault` in `Env.pdfs`). It is not derived from `files`, because the model does not track directories: the missing "null" directory of a parentless PDF is one such failure.
- Jacob and COM automation.
  - Each application is a sequence of launch, open, print/export, close and quit effects.
  - At most one step fails per document (`Env.com`).
  - The `Visible` and `ActivePrinter` properties are not modelled. Nor are failures of `Quit` itself or of `ComThread.InitSTA`/`Release`.
- Stack-trace printing is not modelled: it is logging only.
- Strings.
  - A null `filePath` or `deviceName` is not modelled; the parameters are strings.
  - An exception thrown by `afterPrint.run()` itself is not modelled.
- Paths follow java.io.File's Unix rules with '/' as separator.
  - Windows drive letters and backslashes are not modelled.
  - Redundant separators are not normalised.
  - The working directory is an input (`Env.cwd`).
- Concurrency is not modelled: the code has no synchronisation. Nor is the uniqueness of temporary names across concurrent runs, which the code does not attempt.
- The page loop's integer index is unbounded in the model; a 2^31-page PDF is out of scope.
