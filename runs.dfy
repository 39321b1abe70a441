/** What one call into PrintUtil does, as a function of the outside world:
    the device registry, the spooler's verdicts, the PDFs the renderer can
    open and where the Office automation breaks. A call yields an outcome
    (returned normally, or the exception it threw) and the list of external
    effects it caused, in order. */
module Runs {
  import opened Wrappers
  import opened Paths
  import opened Dispatch
  import opened Devices

  datatype Orientation = Portrait | Landscape

  /** One document handed to a print service. */
  datatype Job = Job(path: string, flavor: Flavor, orientation: Orientation, device: Device)

  datatype App = WordApp | ExcelApp | PowerPointApp

  /** An external effect. */
  datatype Event =
    | Submitted(job: Job, accepted: bool)  // job.print(...); a refusal is swallowed
    | TempWritten(path: string)            // ImageIO.write of a rendered page
    | Deleted(path: string)                // File.delete
    | Launched(app: App)                   // new ActiveXComponent(...)
    | Opened(app: App, path: string)       // Documents/Workbooks/Presentations.Open
    | PrintedOut(app: App, printer: string)
    | Exported(path: string)               // SaveAs ... 32 (PDF)
    | Closed(app: App)
    | Quit(app: App)
    | HookRan                              // afterPrint.run()

  /** A failure while producing the image of one page. ImageIO.write first
      deletes any file at the image's path, then creates the file, then
      writes the image into it. */
  datatype PageFault =
    | RenderFault(page: nat)  // renderImageWithDPI throws: no file is touched
    | CreateFault(page: nat)  // the old file is deleted, the new one cannot be created
    | WriteFault(page: nat)   // the image file is created, then writing it fails: it stays

  /** What PDFBox finds in a PDF file. */
  datatype PdfDoc = PdfDoc(pageCount: nat, fault: Option<PageFault>)

  /** The automation step that throws: starting the application, anything up
      to and including opening the document, the PrintOut/SaveAs command, or
      closing the document. */
  datatype ComFault = LaunchFault | OpenFault | ActionFault | CloseFault

  /** The outside world of one call. */
  datatype Env = Env(
    devices: seq<Device>,           // PrintServiceLookup.lookupPrintServices
    defaultDevice: Option<Device>,  // PrintServiceLookup.lookupDefaultPrintService
    cwd: string,                    // the working directory, for getAbsolutePath
    rejected: set<Job>,             // jobs whose submission throws
    pdfs: map<string, PdfDoc>,      // files PDDocument.load can open
    com: map<string, ComFault>)     // documents whose automation throws

  /** The exception a call ends with. */
  datatype Error =
    | DeviceNotFound            // new Exception("Device not found")
    | NullReference             // a NullPointerException
    | AutomationFailed(app: App)

  datatype Outcome = Ok | Fail(error: Error)

  datatype Run = Run(outcome: Outcome, events: seq<Event>)

  function ComFaultOf(env: Env, path: string): Option<ComFault> {
    if path in env.com then Some(env.com[path]) else None
  }

  // ---------------------------------------------------------------------------
  // The file system: which files exist after a list of effects
  // ---------------------------------------------------------------------------

  function Touch(files: set<string>, e: Event): set<string> {
    match e
    case TempWritten(p) => files + {p}
    case Exported(p) => files + {p}
    case Deleted(p) => files - {p}
    case _ => files
  }

  function FilesAfter(files: set<string>, events: seq<Event>): set<string>
    decreases |events|
  {
    if events == [] then files
    else Touch(FilesAfter(files, events[..|events| - 1]), events[|events| - 1])
  }

  /** The submitted jobs among a list of effects, in order. */
  function Jobs(events: seq<Event>): seq<Job>
    decreases |events|
  {
    if events == [] then []
    else
      var e := events[|events| - 1];
      Jobs(events[..|events| - 1]) + (if e.Submitted? then [e.job] else [])
  }

  // ---------------------------------------------------------------------------
  // normalPrint
  // ---------------------------------------------------------------------------

  /** normalPrint(file, flavor, orientation, service): nothing without a
      service; otherwise one submission, whose failure is swallowed. */
  function SubmitEvents(env: Env, path: string, flavor: Flavor, orientation: Orientation,
                        service: Option<Device>): seq<Event>
  {
    match service
    case None => []
    case Some(d) =>
      var job := Job(path, flavor, orientation, d);
      [Submitted(job, job !in env.rejected)]
  }

  // ---------------------------------------------------------------------------
  // printPDF
  // ---------------------------------------------------------------------------

  /** One turn of the page loop: write the image, print it in landscape, delete it. */
  function PageEvents(env: Env, parent: Option<string>, flavor: Flavor, service: Option<Device>,
                      i: nat): seq<Event>
  {
    var f := TempPath(parent, i);
    [TempWritten(f)] + SubmitEvents(env, f, flavor, Landscape, service) + [Deleted(f)]
  }

  /** The first `n` turns of the page loop. */
  function PagesEvents(env: Env, parent: Option<string>, flavor: Flavor, service: Option<Device>,
                       n: nat): seq<Event>
  {
    if n == 0 then []
    else PagesEvents(env, parent, flavor, service, n - 1) + PageEvents(env, parent, flavor, service, n - 1)
  }

  /** The pages the loop completes before a rendering or writing failure stops it. */
  function CompletedPages(doc: PdfDoc): nat {
    match doc.fault
    case None => doc.pageCount
    case Some(f) => if f.page < doc.pageCount then f.page else doc.pageCount
  }

  /** Whether page `i` is the one whose image cannot be produced. */
  predicate FaultsAt(doc: PdfDoc, i: nat) {
    doc.fault.Some? && doc.fault.value.page == i
  }

  /** The effects of a loop turn that a failure ends: none when page `i`
      cannot be rendered; the deletion of whatever file had its image's name
      when the image file cannot be created; the image file when it is
      created but cannot be written. */
  function StoppedTurn(parent: Option<string>, doc: PdfDoc, i: nat): seq<Event> {
    var f := TempPath(parent, i);
    if doc.fault == Some(CreateFault(i)) then [Deleted(f)]
    else if doc.fault == Some(WriteFault(i)) then [TempWritten(f)]
    else []
  }

  /** printPDF(file, flavor, service): nothing when the PDF cannot be loaded;
      otherwise the completed turns of the loop, then the file effects of the
      turn a failure ended. Every exception is caught. */
  function PdfEvents(env: Env, path: string, flavor: Flavor, service: Option<Device>): seq<Event> {
    if path !in env.pdfs then []
    else
      var doc := env.pdfs[path];
      var parent := ParentOf(path);
      var k := CompletedPages(doc);
      PagesEvents(env, parent, flavor, service, k)
        + (if k < doc.pageCount then StoppedTurn(parent, doc, k) else [])
  }

  // ---------------------------------------------------------------------------
  // printWord, printExcel, printPPT
  // ---------------------------------------------------------------------------

  /** printWord: an empty path returns at once. Failures up to opening the
      document escape (the application is left running); a PrintOut failure is
      caught; Close runs if the document was opened and its failure is caught;
      Quit always follows. */
  function WordRun(env: Env, path: string, deviceName: string): Run {
    if path == [] then Run(Ok, [])
    else
      match ComFaultOf(env, path)
      case Some(LaunchFault) => Run(Fail(AutomationFailed(WordApp)), [])
      case Some(OpenFault) => Run(Fail(AutomationFailed(WordApp)), [Launched(WordApp)])
      case Some(ActionFault) =>
        Run(Ok, [Launched(WordApp), Opened(WordApp, path), Closed(WordApp), Quit(WordApp)])
      case Some(CloseFault) =>
        Run(Ok, [Launched(WordApp), Opened(WordApp, path), PrintedOut(WordApp, deviceName), Quit(WordApp)])
      case None =>
        Run(Ok, [Launched(WordApp), Opened(WordApp, path), PrintedOut(WordApp, deviceName),
                 Closed(WordApp), Quit(WordApp)])
  }

  /** printExcel: an empty path returns at once. Only starting Excel can
      throw out of it; every later failure is caught and skips the rest of the
      try block, Close included, and Quit always follows. */
  function ExcelRun(env: Env, path: string, deviceName: string): Run {
    if path == [] then Run(Ok, [])
    else
      match ComFaultOf(env, path)
      case Some(LaunchFault) => Run(Fail(AutomationFailed(ExcelApp)), [])
      case Some(OpenFault) => Run(Ok, [Launched(ExcelApp), Quit(ExcelApp)])
      case Some(ActionFault) => Run(Ok, [Launched(ExcelApp), Opened(ExcelApp, path), Quit(ExcelApp)])
      case Some(CloseFault) =>
        Run(Ok, [Launched(ExcelApp), Opened(ExcelApp, path), PrintedOut(ExcelApp, deviceName), Quit(ExcelApp)])
      case None =>
        Run(Ok, [Launched(ExcelApp), Opened(ExcelApp, path), PrintedOut(ExcelApp, deviceName),
                 Closed(ExcelApp), Quit(ExcelApp)])
  }

  /** The PowerPoint export always ends in ".pdf", so printing it never comes
      back to printPPT, nor to Word or Excel. */
  lemma ExportIsNotOffice(cwd: string, path: string)
    requires PptExportPathAsWritten(cwd, path).Some?
    ensures Classify(ExtensionOf(PptExportPathAsWritten(cwd, path).value)) in {Raster(Gif), Pdf, NoOp}
  {
    var inner := AbsolutePath(cwd, ParentOf(path).value) + NameOf(path);
    var file := inner + ".pdf";
    var prefix :=
      if PrefixLength(file) == 1 then inner
      else if cwd == [Sep] then cwd + inner
      else cwd + [Sep] + inner;
    var pdf := PptExportPathAsWritten(cwd, path).value;
    assert pdf == prefix + ".pdf";
    PdfFileTypeEndsInF(prefix);
    ClassifyEndingInF(ExtensionOf(pdf));
  }

  /** The export step of printPPT (open, SaveAs PDF): its failures are
      rethrown after the finally block closes what was opened and quits; a
      failing Close escapes the finally block before Quit. */
  function ExportRun(env: Env, path: string, pdf: string): Run {
    match ComFaultOf(env, path)
    case Some(LaunchFault) => Run(Fail(AutomationFailed(PowerPointApp)), [])
    case Some(OpenFault) =>
      Run(Fail(AutomationFailed(PowerPointApp)), [Launched(PowerPointApp), Quit(PowerPointApp)])
    case Some(ActionFault) =>
      Run(Fail(AutomationFailed(PowerPointApp)),
          [Launched(PowerPointApp), Opened(PowerPointApp, path), Closed(PowerPointApp), Quit(PowerPointApp)])
    case Some(CloseFault) =>
      Run(Fail(AutomationFailed(PowerPointApp)),
          [Launched(PowerPointApp), Opened(PowerPointApp, path), Exported(pdf)])
    case None => Run(Ok, ExportEvents(path, pdf))
  }

  /** printPPT: getParentFile() of a path without a parent throws before
      anything else happens. */
  function PptRun(env: Env, path: string, deviceName: string): Run
    decreases 1, 0
  {
    match PptExportPathAsWritten(env.cwd, path)
    case None => Run(Fail(NullReference), [])
    case Some(pdf) =>
      ExportIsNotOffice(env.cwd, path);
      ExportAndPrintRun(env, path, pdf, deviceName)
  }

  /** The rest of printPPT, once the PDF's path is known: a failed export is
      rethrown; after a clean one the PDF is printed by a nested
      print(pdf, deviceName) and deleted, and a failure of that nested call
      is caught and skips the deletion. */
  function ExportAndPrintRun(env: Env, path: string, pdf: string, deviceName: string): Run
    requires Classify(ExtensionOf(pdf)) != Ppt
    decreases 0, 3
  {
    var ex := ExportRun(env, path, pdf);
    if ex.outcome.Fail? then ex
    else Run(Ok, ex.events + PrintAndDeleteEvents(env, pdf, deviceName))
  }

  /** The tail of printPPT: the nested print of the exported PDF, then its
      deletion unless that print failed. */
  function PrintAndDeleteEvents(env: Env, pdf: string, deviceName: string): seq<Event>
    requires Classify(ExtensionOf(pdf)) != Ppt
    decreases 0, 2
  {
    var nested := PrintRun(env, pdf, deviceName);
    nested.events + (if nested.outcome.Ok? then [Deleted(pdf)] else [])
  }

  /** A clean export of the deck at `path` to `pdf`. */
  function ExportEvents(path: string, pdf: string): seq<Event> {
    [Launched(PowerPointApp), Opened(PowerPointApp, path), Exported(pdf),
     Closed(PowerPointApp), Quit(PowerPointApp)]
  }

  // ---------------------------------------------------------------------------
  // print
  // ---------------------------------------------------------------------------

  /** print(filePath, deviceName): resolve the device first (failing before
      anything else when no device has that name), then run the one handler
      the file type selects. */
  function PrintRun(env: Env, path: string, deviceName: string): Run
    decreases if Classify(ExtensionOf(path)) == Ppt then 1 else 0, 1
  {
    match FirstNamed(env.devices, deviceName)
    case None => Run(Fail(DeviceNotFound), [])
    case Some(i) =>
      var service := env.devices[i];
      match Classify(ExtensionOf(path))
      case Raster(flavor) => Run(Ok, SubmitEvents(env, path, flavor, Portrait, Some(service)))
      case Pdf => Run(Ok, PdfEvents(env, path, Png, Some(service)))
      case Word => WordRun(env, path, deviceName)
      case Excel => ExcelRun(env, path, deviceName)
      case Ppt => PptRun(env, path, deviceName)
      case NoOp => Run(Ok, [])
  }

  /** print(filePath): print on the default device; with no default device,
      reading its name throws. */
  function PrintToDefaultRun(env: Env, path: string): Run {
    match env.defaultDevice
    case None => Run(Fail(NullReference), [])
    case Some(d) => PrintRun(env, path, d.name)
  }

  /** The AfterPrint overloads: run the hook once print has returned normally. */
  function WithHook(run: Run): Run {
    if run.outcome.Ok? then Run(Ok, run.events + [HookRan]) else run
  }
}
