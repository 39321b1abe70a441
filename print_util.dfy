/** PrintUtil's static methods over the state they change: the log of
    external effects (what the spooler, the file system and the Office
    applications were asked to do, in order) and the set of existing files.
    Each method is proved to do exactly what the run functions of module
    Runs say, so the properties proved there hold of it. */
module Printing {
  import opened Wrappers
  import opened Paths
  import opened Dispatch
  import opened Devices
  import opened Runs
  import opened Properties

  class PrintUtil {
    /** The outside world: devices, spooler verdicts, PDFs, automation faults. */
    const env: Env
    /** Every external effect so far, oldest first. */
    var log: seq<Event>
    /** The files that exist. */
    var files: set<string>

    constructor (env: Env, files: set<string>)
      ensures this.env == env && log == [] && this.files == files
    {
      this.env := env;
      this.log := [];
      this.files := files;
    }

    /** normalPrint(file, flavor, requested, service): with a service, hand
        the file to it with the requested orientation; any failure is caught. */
    method NormalPrint(path: string, flavor: Flavor, orientation: Orientation, service: Option<Device>)
      modifies this
      ensures log == old(log) + SubmitEvents(env, path, flavor, orientation, service)
      ensures files == old(files)
    {
      if service.Some? {
        var job := Job(path, flavor, orientation, service.value);
        log := log + [Submitted(job, job !in env.rejected)];
      }
    }

    /** normalPrint(file, flavor, service): portrait. */
    method NormalPrintPortrait(path: string, flavor: Flavor, service: Option<Device>)
      modifies this
      ensures log == old(log) + SubmitEvents(env, path, flavor, Portrait, service)
      ensures files == old(files)
    {
      NormalPrint(path, flavor, Portrait, service);
    }

    /** normalPrint(file, flavor): portrait, on the default service (none
        when the host has no default printer). */
    method NormalPrintToDefault(path: string, flavor: Flavor)
      modifies this
      ensures log == old(log) + SubmitEvents(env, path, flavor, Portrait, env.defaultDevice)
      ensures files == old(files)
    {
      NormalPrintPortrait(path, flavor, env.defaultDevice);
    }

    /** printPDF: for each page in order, write its image to TempPath
        (temp_i.png under the text of the PDF's parent, "null" when it has
        none), print it in landscape, delete it. A PDF that cannot be loaded,
        or a page that cannot be rendered or written, ends the method quietly. */
    method PrintPdf(path: string, flavor: Flavor, service: Option<Device>)
      modifies this
      ensures log == old(log) + PdfEvents(env, path, flavor, service)
      ensures files == FilesAfter(old(files), PdfEvents(env, path, flavor, service))
    {
      if path !in env.pdfs {
        assert PdfEvents(env, path, flavor, service) == [];
        return;
      }
      var doc := env.pdfs[path];
      var parent := ParentOf(path);
      var i := 0;
      while i < doc.pageCount
        invariant i <= CompletedPages(doc)
        invariant log == old(log) + PagesEvents(env, parent, flavor, service, i)
        invariant files == FilesAfter(old(files), PagesEvents(env, parent, flavor, service, i))
      {
        ghost var done := PagesEvents(env, parent, flavor, service, i);
        var stopped := PrintPage(parent, doc, flavor, service, i);
        ghost var turn := if stopped then StoppedTurn(parent, doc, i) else PageEvents(env, parent, flavor, service, i);
        AppendTwice(old(log), done, turn);
        FilesAfterConcat(old(files), done, turn);
        if stopped {
          LoopStops(env, path, flavor, service, i);
          return;
        }
        LoopContinues(doc, i);
        i := i + 1;
      }
      LoopCompletes(env, path, flavor, service, i);
    }

    /** One turn of printPDF's loop over page `i`: render it and write its
        image, print the image in landscape, delete it. Reports whether a
        failure to render the page or to create or write its image ended the
        loop. */
    method PrintPage(parent: Option<string>, doc: PdfDoc, flavor: Flavor, service: Option<Device>, i: nat)
      returns (stopped: bool)
      modifies this
      ensures stopped <==> FaultsAt(doc, i)
      ensures stopped ==> log == old(log) + StoppedTurn(parent, doc, i)
      ensures stopped ==> files == FilesAfter(old(files), StoppedTurn(parent, doc, i))
      ensures !stopped ==> log == old(log) + PageEvents(env, parent, flavor, service, i)
      ensures !stopped ==> files == FilesAfter(old(files), PageEvents(env, parent, flavor, service, i))
    {
      var f := TempPath(parent, i);
      if doc.fault == Some(RenderFault(i)) {
        return true;
      }
      if doc.fault == Some(CreateFault(i)) {
        log := log + [Deleted(f)];
        files := files - {f};
        FilesAfterOne(old(files), Deleted(f));
        return true;
      }
      log := log + [TempWritten(f)];
      files := files + {f};
      FilesAfterOne(old(files), TempWritten(f));
      if doc.fault == Some(WriteFault(i)) {
        return true;
      }
      NormalPrint(f, flavor, Landscape, service);
      log := log + [Deleted(f)];
      files := files - {f};
      PageLeavesNoFile(env, old(files), parent, flavor, service, i);
      stopped := false;
    }

    /** printWord. */
    method PrintWord(path: string, deviceName: string) returns (r: Outcome)
      modifies this
      ensures r == WordRun(env, path, deviceName).outcome
      ensures log == old(log) + WordRun(env, path, deviceName).events
      ensures files == old(files)
    {
      if path == [] {
        return Ok;
      }
      var fault := ComFaultOf(env, path);
      if fault == Some(LaunchFault) {
        return Fail(AutomationFailed(WordApp));
      }
      log := log + [Launched(WordApp)];
      if fault == Some(OpenFault) {
        return Fail(AutomationFailed(WordApp));
      }
      log := log + [Opened(WordApp, path)];
      if fault != Some(ActionFault) {
        log := log + [PrintedOut(WordApp, deviceName)];
      }
      // finally: Close (its failure is caught), then Quit
      if fault != Some(CloseFault) {
        log := log + [Closed(WordApp)];
      }
      log := log + [Quit(WordApp)];
      r := Ok;
    }

    /** printExcel. */
    method PrintExcel(path: string, deviceName: string) returns (r: Outcome)
      modifies this
      ensures r == ExcelRun(env, path, deviceName).outcome
      ensures log == old(log) + ExcelRun(env, path, deviceName).events
      ensures files == old(files)
    {
      if path == [] {
        return Ok;
      }
      var fault := ComFaultOf(env, path);
      if fault == Some(LaunchFault) {
        return Fail(AutomationFailed(ExcelApp));
      }
      log := log + [Launched(ExcelApp)];
      if fault != Some(OpenFault) {
        log := log + [Opened(ExcelApp, path)];
        if fault != Some(ActionFault) {
          log := log + [PrintedOut(ExcelApp, deviceName)];
          if fault != Some(CloseFault) {
            log := log + [Closed(ExcelApp)];
          }
        }
      }
      // finally: Quit
      log := log + [Quit(ExcelApp)];
      r := Ok;
    }

    /** The export step of printPPT: open the deck in PowerPoint, save it as
        `pdf`, then close it and quit. */
    method ExportPpt(path: string, pdf: string) returns (r: Outcome)
      modifies this
      ensures r == ExportRun(env, path, pdf).outcome
      ensures log == old(log) + ExportRun(env, path, pdf).events
      ensures files == FilesAfter(old(files), ExportRun(env, path, pdf).events)
    {
      var fault := ComFaultOf(env, path);
      var failed := Fail(AutomationFailed(PowerPointApp));
      var launched := [Launched(PowerPointApp)];
      if fault == Some(LaunchFault) {
        return failed;
      }
      log := log + launched;
      if fault == Some(OpenFault) {
        log := log + [Quit(PowerPointApp)];
        FilesAfterKept(old(files), launched + [Quit(PowerPointApp)]);
        return failed;
      }
      var inDeck := launched + [Opened(PowerPointApp, path)];
      log := log + [Opened(PowerPointApp, path)];
      if fault == Some(ActionFault) {
        log := log + [Closed(PowerPointApp), Quit(PowerPointApp)];
        assert inDeck + [Closed(PowerPointApp), Quit(PowerPointApp)] == ExportRun(env, path, pdf).events;
        FilesAfterKept(old(files), inDeck + [Closed(PowerPointApp), Quit(PowerPointApp)]);
        return failed;
      }
      log := log + [Exported(pdf)];
      files := files + {pdf};
      FilesAfterKept(old(files), inDeck);
      FilesAfterConcat(old(files), inDeck, [Exported(pdf)]);
      FilesAfterOne(old(files), Exported(pdf));
      if fault == Some(CloseFault) {
        assert inDeck + [Exported(pdf)] == ExportRun(env, path, pdf).events;
        return failed;
      }
      // finally: Close, then Quit
      log := log + [Closed(PowerPointApp), Quit(PowerPointApp)];
      ExportCreatesPdf(old(files), path, pdf);
      r := Ok;
    }

    /** printPPT: export the deck to PptExportPathAsWritten (the parent's
        absolute path glued to the name), print that PDF, delete it. */
    method PrintPpt(path: string, deviceName: string) returns (r: Outcome)
      modifies this
      decreases 1, 0
      ensures r == PptRun(env, path, deviceName).outcome
      ensures log == old(log) + PptRun(env, path, deviceName).events
      ensures files == FilesAfter(old(files), PptRun(env, path, deviceName).events)
    {
      var pdf := PptExportPathAsWritten(env.cwd, path);
      if pdf.None? {
        return Fail(NullReference);
      }
      ExportIsNotOffice(env.cwd, path);
      r := ExportAndPrint(path, pdf.value, deviceName);
    }

    /** The rest of printPPT, once the PDF's path is known. */
    method ExportAndPrint(path: string, pdf: string, deviceName: string) returns (r: Outcome)
      requires Classify(ExtensionOf(pdf)) != Ppt
      modifies this
      decreases 0, 3
      ensures r == ExportAndPrintRun(env, path, pdf, deviceName).outcome
      ensures log == old(log) + ExportAndPrintRun(env, path, pdf, deviceName).events
      ensures files == FilesAfter(old(files), ExportAndPrintRun(env, path, pdf, deviceName).events)
    {
      r := ExportPpt(path, pdf);
      if r.Fail? {
        return;
      }
      ghost var exported := ExportRun(env, path, pdf).events;
      ghost var tail := PrintAndDeleteEvents(env, pdf, deviceName);
      PrintAndDelete(pdf, deviceName);
      AppendTwice(old(log), exported, tail);
      FilesAfterConcat(old(files), exported, tail);
    }

    /** The tail of printPPT: print the exported PDF; delete it unless that
        print failed. The failure itself is caught. */
    method PrintAndDelete(pdf: string, deviceName: string)
      requires Classify(ExtensionOf(pdf)) != Ppt
      modifies this
      decreases 0, 2
      ensures log == old(log) + PrintAndDeleteEvents(env, pdf, deviceName)
      ensures files == FilesAfter(old(files), PrintAndDeleteEvents(env, pdf, deviceName))
    {
      var nested := Print(pdf, deviceName);
      ghost var events := PrintRun(env, pdf, deviceName).events;
      if nested.Ok? {
        log := log + [Deleted(pdf)];
        files := files - {pdf};
        FilesAfterConcat(old(files), events, [Deleted(pdf)]);
        FilesAfterOne(FilesAfter(old(files), events), Deleted(pdf));
      } else {
        assert events + [] == events;
      }
    }

    /** print(filePath, deviceName): resolve the device, then run the handler
        the file type selects. */
    method Print(path: string, deviceName: string) returns (r: Outcome)
      modifies this
      decreases if Classify(ExtensionOf(path)) == Ppt then 1 else 0, 1
      ensures r == PrintRun(env, path, deviceName).outcome
      ensures log == old(log) + PrintRun(env, path, deviceName).events
      ensures files == FilesAfter(old(files), PrintRun(env, path, deviceName).events)
    {
      var found := FindDevice(env.devices, deviceName);
      if found.None? {
        return Fail(DeviceNotFound);
      }
      var service := env.devices[found.value];
      match Classify(ExtensionOf(path))
      case Raster(flavor) =>
        NormalPrintPortrait(path, flavor, Some(service));
        FilesAfterKept(old(files), SubmitEvents(env, path, flavor, Portrait, Some(service)));
        r := Ok;
      case Pdf =>
        PrintPdf(path, Png, Some(service));
        r := Ok;
      case Word =>
        r := PrintWord(path, deviceName);
        OfficeKeepsFiles(env, path, deviceName, old(files));
      case Excel =>
        r := PrintExcel(path, deviceName);
        OfficeKeepsFiles(env, path, deviceName, old(files));
      case Ppt =>
        r := PrintPpt(path, deviceName);
      case NoOp =>
        r := Ok;
    }

    /** print(filePath): print on the default device. */
    method PrintToDefault(path: string) returns (r: Outcome)
      modifies this
      ensures r == PrintToDefaultRun(env, path).outcome
      ensures log == old(log) + PrintToDefaultRun(env, path).events
      ensures files == FilesAfter(old(files), PrintToDefaultRun(env, path).events)
    {
      if env.defaultDevice.None? {
        return Fail(NullReference);
      }
      r := Print(path, env.defaultDevice.value.name);
    }

    /** print(filePath, deviceName, afterPrint). */
    method PrintWithHook(path: string, deviceName: string) returns (r: Outcome)
      modifies this
      ensures r == WithHook(PrintRun(env, path, deviceName)).outcome
      ensures log == old(log) + WithHook(PrintRun(env, path, deviceName)).events
      ensures files == FilesAfter(old(files), PrintRun(env, path, deviceName).events)
    {
      r := Print(path, deviceName);
      if r.Ok? {
        log := log + [HookRan];
      }
    }

    /** print(filePath, afterPrint). */
    method PrintToDefaultWithHook(path: string) returns (r: Outcome)
      modifies this
      ensures r == WithHook(PrintToDefaultRun(env, path)).outcome
      ensures log == old(log) + WithHook(PrintToDefaultRun(env, path)).events
      ensures files == FilesAfter(old(files), PrintToDefaultRun(env, path).events)
    {
      r := PrintToDefault(path);
      if r.Ok? {
        log := log + [HookRan];
      }
    }
  }
}
