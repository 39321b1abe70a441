/** What print promises, proved about the run functions: the device is
    resolved before anything happens, an unknown type does nothing, a raster
    image is submitted once, a PDF's pages are printed in order and their
    images removed, the Office handlers quit, the slide export is removed,
    and the AfterPrint hook runs exactly when print returns normally. */
module Properties {
  import opened Wrappers
  import opened Paths
  import opened Dispatch
  import opened Devices
  import opened Runs

  // ---------------------------------------------------------------------------
  // Effects lists
  // ---------------------------------------------------------------------------

  /** A slice within the first part of a concatenation is a slice of that part. */
  lemma SliceOfPrefix<T>(a: seq<T>, b: seq<T>, lo: nat, hi: nat)
    requires lo <= hi <= |a|
    ensures (a + b)[lo..hi] == a[lo..hi]
  {
  }

  /** The second part of a concatenation is its slice after the first part. */
  lemma SliceOfSuffix<T>(a: seq<T>, b: seq<T>)
    ensures (a + b)[|a|..|a| + |b|] == b
  {
  }

  /** Appending to a log in two steps appends the two parts in order. */
  lemma AppendTwice<T>(log: seq<T>, a: seq<T>, b: seq<T>)
    ensures log + a + b == log + (a + b)
  {
  }

  lemma {:induction false} FilesAfterConcat(files: set<string>, a: seq<Event>, b: seq<Event>)
    ensures FilesAfter(files, a + b) == FilesAfter(FilesAfter(files, a), b)
    decreases |b|
  {
    if b == [] {
      assert a + b == a;
    } else {
      assert (a + b)[..|a + b| - 1] == a + b[..|b| - 1];
      assert (a + b)[|a + b| - 1] == b[|b| - 1];
      FilesAfterConcat(files, a, b[..|b| - 1]);
    }
  }

  lemma {:induction false} JobsConcat(a: seq<Event>, b: seq<Event>)
    ensures Jobs(a + b) == Jobs(a) + Jobs(b)
    decreases |b|
  {
    if b == [] {
      assert a + b == a;
    } else {
      assert (a + b)[..|a + b| - 1] == a + b[..|b| - 1];
      assert (a + b)[|a + b| - 1] == b[|b| - 1];
      JobsConcat(a, b[..|b| - 1]);
    }
  }

  /** Effects other than writing, exporting and deleting a file. */
  predicate KeepsFiles(e: Event) {
    !e.TempWritten? && !e.Exported? && !e.Deleted?
  }

  /** Such effects leave the set of files as it was. */
  lemma {:induction false} FilesAfterKept(files: set<string>, events: seq<Event>)
    requires forall i :: 0 <= i < |events| ==> KeepsFiles(events[i])
    ensures FilesAfter(files, events) == files
    decreases |events|
  {
    if events != [] {
      FilesAfterKept(files, events[..|events| - 1]);
    }
  }

  lemma FilesAfterOne(files: set<string>, e: Event)
    ensures FilesAfter(files, [e]) == Touch(files, e)
  {
    assert [e][..0] == [];
  }

  /** The images of the first `n` pages. */
  function TempSet(parent: Option<string>, n: nat): set<string> {
    set i: nat | i < n :: TempPath(parent, i)
  }

  /** One more page removes exactly that page's image as well. */
  lemma TempSetGrows(files: set<string>, parent: Option<string>, n: nat)
    ensures files - TempSet(parent, n + 1) == files - TempSet(parent, n) - {TempPath(parent, n)}
  {
    assert TempSet(parent, n + 1) == TempSet(parent, n) + {TempPath(parent, n)};
  }

  /** Page i's image is among the images of the first n pages exactly when
      i < n: a later page's image is never one the loop has already deleted. */
  lemma TempSetHoldsEarlierPages(parent: Option<string>, n: nat, i: nat)
    ensures TempPath(parent, i) in TempSet(parent, n) <==> i < n
  {
    if TempPath(parent, i) in TempSet(parent, n) {
      var j: nat :| j < n && TempPath(parent, j) == TempPath(parent, i);
      TempPathsDistinct(parent, j, i);
    }
  }

  // ---------------------------------------------------------------------------
  // The page loop of printPDF
  // ---------------------------------------------------------------------------

  /** A turn of the loop leaves its image deleted, whatever the spooler did. */
  lemma PageLeavesNoFile(env: Env, files: set<string>, parent: Option<string>, flavor: Flavor,
                         service: Option<Device>, i: nat)
    ensures FilesAfter(files, PageEvents(env, parent, flavor, service, i)) == files - {TempPath(parent, i)}
  {
    var f := TempPath(parent, i);
    var s := SubmitEvents(env, f, flavor, Landscape, service);
    assert [TempWritten(f)][..0] == [];
    assert FilesAfter(files, [TempWritten(f)]) == files + {f};
    if s != [] {
      assert ([TempWritten(f)] + s)[..1] == [TempWritten(f)];
    }
    assert FilesAfter(files, [TempWritten(f)] + s) == files + {f};
    assert ([TempWritten(f)] + s + [Deleted(f)])[..|s| + 1] == [TempWritten(f)] + s;
  }

  /** After the first `n` turns of the loop none of their images exists, and
      no other file has changed. */
  lemma {:induction false} PagesLeaveNoFile(env: Env, files: set<string>, parent: Option<string>,
                                            flavor: Flavor, service: Option<Device>, n: nat)
    ensures FilesAfter(files, PagesEvents(env, parent, flavor, service, n)) == files - TempSet(parent, n)
  {
    if n == 0 {
      assert TempSet(parent, 0) == {};
    } else {
      var before := PagesEvents(env, parent, flavor, service, n - 1);
      var page := PageEvents(env, parent, flavor, service, n - 1);
      assert PagesEvents(env, parent, flavor, service, n) == before + page;
      FilesAfterConcat(files, before, page);
      PagesLeaveNoFile(env, files, parent, flavor, service, n - 1);
      PageLeavesNoFile(env, FilesAfter(files, before), parent, flavor, service, n - 1);
      TempSetGrows(files, parent, n - 1);
    }
  }

  /** Each turn of the loop submits exactly its own image. */
  lemma PageSubmitsItsImage(env: Env, parent: Option<string>, flavor: Flavor, d: Device, i: nat)
    ensures Jobs(PageEvents(env, parent, flavor, Some(d), i)) == [Job(TempPath(parent, i), flavor, Landscape, d)]
  {
    var f := TempPath(parent, i);
    var job := Job(f, flavor, Landscape, d);
    var evs := PageEvents(env, parent, flavor, Some(d), i);
    var a := [TempWritten(f)];
    var b := a + [Submitted(job, job !in env.rejected)];
    assert evs == b + [Deleted(f)];
    assert Jobs(a) == [] by { assert a[..0] == []; }
    assert Jobs(b) == [job] by { assert b[..1] == a; }
    assert evs[..2] == b;
  }

  /** The first `n` turns submit one job per page, in page order, each the
      page's image, in landscape, with the given flavour. */
  lemma {:induction false} PagesSubmitInOrder(env: Env, parent: Option<string>, flavor: Flavor,
                                              d: Device, n: nat)
    ensures |Jobs(PagesEvents(env, parent, flavor, Some(d), n))| == n
    ensures forall k :: 0 <= k < n ==>
      Jobs(PagesEvents(env, parent, flavor, Some(d), n))[k] == Job(TempPath(parent, k), flavor, Landscape, d)
  {
    if n > 0 {
      var before := PagesEvents(env, parent, flavor, Some(d), n - 1);
      var page := PageEvents(env, parent, flavor, Some(d), n - 1);
      var jobs := Jobs(before) + [Job(TempPath(parent, n - 1), flavor, Landscape, d)];
      assert Jobs(PagesEvents(env, parent, flavor, Some(d), n)) == jobs by {
        JobsConcat(before, page);
        PageSubmitsItsImage(env, parent, flavor, d, n - 1);
      }
      PagesSubmitInOrder(env, parent, flavor, d, n - 1);
      forall k | 0 <= k < n
        ensures jobs[k] == Job(TempPath(parent, k), flavor, Landscape, d)
      {
        if k < n - 1 {
          assert jobs[k] == Jobs(before)[k];
        }
      }
    }
  }

  /** A turn that meets no failure leaves the loop another page to complete. */
  lemma LoopContinues(doc: PdfDoc, i: nat)
    requires i <= CompletedPages(doc) && i < doc.pageCount
    requires !FaultsAt(doc, i)
    ensures i + 1 <= CompletedPages(doc)
  {
  }

  /** A loop that fails on page `i` has printed the pages before it, then
      stops with the file effects of page i's failed turn. */
  lemma LoopStops(env: Env, path: string, flavor: Flavor, service: Option<Device>, i: nat)
    requires path in env.pdfs && i <= CompletedPages(env.pdfs[path]) && i < env.pdfs[path].pageCount
    requires FaultsAt(env.pdfs[path], i)
    ensures PdfEvents(env, path, flavor, service)
         == PagesEvents(env, ParentOf(path), flavor, service, i) + StoppedTurn(ParentOf(path), env.pdfs[path], i)
  {
  }

  /** A loop that runs out of pages has printed them all. */
  lemma LoopCompletes(env: Env, path: string, flavor: Flavor, service: Option<Device>, i: nat)
    requires path in env.pdfs && i <= CompletedPages(env.pdfs[path]) && i >= env.pdfs[path].pageCount
    ensures PdfEvents(env, path, flavor, service) == PagesEvents(env, ParentOf(path), flavor, service, i)
  {
    assert PagesEvents(env, ParentOf(path), flavor, service, i) + [] == PagesEvents(env, ParentOf(path), flavor, service, i);
  }

  /** With a print service each turn of the loop has three effects. */
  lemma {:induction false} PagesLength(env: Env, parent: Option<string>, flavor: Flavor, d: Device, n: nat)
    ensures |PagesEvents(env, parent, flavor, Some(d), n)| == 3 * n
  {
    if n > 0 {
      PagesLength(env, parent, flavor, d, n - 1);
      assert |PageEvents(env, parent, flavor, Some(d), n - 1)| == 3;
    }
  }

  /** Turn `i` of the loop occupies positions 3i to 3i+2 of the effects: its
      image is written, submitted and deleted before the next page starts. */
  lemma {:induction false} PageTurnInPlace(env: Env, parent: Option<string>, flavor: Flavor,
                                           d: Device, n: nat, i: nat)
    requires i < n
    ensures |PagesEvents(env, parent, flavor, Some(d), n)| == 3 * n
    ensures PagesEvents(env, parent, flavor, Some(d), n)[3 * i..3 * i + 3]
         == PageEvents(env, parent, flavor, Some(d), i)
  {
    PagesLength(env, parent, flavor, d, n);
    PagesLength(env, parent, flavor, d, n - 1);
    var before := PagesEvents(env, parent, flavor, Some(d), n - 1);
    var page := PageEvents(env, parent, flavor, Some(d), n - 1);
    assert PagesEvents(env, parent, flavor, Some(d), n) == before + page;
    if i < n - 1 {
      PageTurnInPlace(env, parent, flavor, d, n - 1, i);
      SliceOfPrefix(before, page, 3 * i, 3 * i + 3);
    } else {
      SliceOfSuffix(before, page);
    }
  }

  /** Without a print service the loop still writes and deletes every image,
      but submits nothing. */
  lemma {:induction false} PagesWithoutServiceSubmitNothing(env: Env, parent: Option<string>,
                                                            flavor: Flavor, n: nat)
    ensures Jobs(PagesEvents(env, parent, flavor, None, n)) == []
  {
    if n > 0 {
      var f := TempPath(parent, n - 1);
      PagesWithoutServiceSubmitNothing(env, parent, flavor, n - 1);
      JobsConcat(PagesEvents(env, parent, flavor, None, n - 1), PageEvents(env, parent, flavor, None, n - 1));
      var a := [TempWritten(f)];
      assert PageEvents(env, parent, flavor, None, n - 1) == a + [Deleted(f)];
      assert Jobs(a) == [] by { assert a[..0] == []; }
      assert (a + [Deleted(f)])[..1] == a;
    }
  }

  /** normalPrint with a null service submits nothing; so does the page loop. */
  lemma NullServiceSubmitsNothing(env: Env, path: string, flavor: Flavor, orientation: Orientation)
    ensures SubmitEvents(env, path, flavor, orientation, None) == []
    ensures Jobs(PdfEvents(env, path, flavor, None)) == []
  {
    if path in env.pdfs {
      var doc := env.pdfs[path];
      var parent := ParentOf(path);
      var k := CompletedPages(doc);
      PagesWithoutServiceSubmitNothing(env, parent, flavor, k);
      var tail: seq<Event> := if k < doc.pageCount then StoppedTurn(parent, doc, k) else [];
      JobsConcat(PagesEvents(env, parent, flavor, None, k), tail);
      if tail != [] {
        assert tail[..0] == [];
      }
    }
  }

  // ---------------------------------------------------------------------------
  // print(filePath, deviceName)
  // ---------------------------------------------------------------------------

  /** The call fails with "Device not found" exactly when no device bears the
      requested name, and then it has done nothing at all. */
  lemma DeviceNotFoundIffNoMatch(env: Env, path: string, deviceName: string)
    ensures PrintRun(env, path, deviceName).outcome == Fail(DeviceNotFound)
        <==> forall j :: 0 <= j < |env.devices| ==> env.devices[j].name != deviceName
    ensures PrintRun(env, path, deviceName).outcome == Fail(DeviceNotFound)
        ==> PrintRun(env, path, deviceName).events == []
  {
    if FirstNamed(env.devices, deviceName).Some? {
      ResolvedDeviceFailures(env, path, deviceName);
    }
  }

  /** Once the device is resolved, print can only throw because an Office
      application failed or because a slide deck has no parent directory. */
  lemma ResolvedDeviceFailures(env: Env, path: string, deviceName: string)
    requires FirstNamed(env.devices, deviceName).Some?
    ensures PrintRun(env, path, deviceName).outcome.Fail? ==>
      PrintRun(env, path, deviceName).outcome.error
        in {NullReference, AutomationFailed(WordApp), AutomationFailed(ExcelApp), AutomationFailed(PowerPointApp)}
  {
    if Classify(ExtensionOf(path)) == Ppt {
      PptFailures(env, path, deviceName);
    }
  }

  /** printPPT throws only for a deck without a parent directory or when
      PowerPoint fails; a failure of the nested print is swallowed. */
  lemma PptFailures(env: Env, path: string, deviceName: string)
    ensures PptRun(env, path, deviceName).outcome.Fail? ==>
      PptRun(env, path, deviceName).outcome.error in {NullReference, AutomationFailed(PowerPointApp)}
    ensures PptRun(env, path, deviceName).outcome.Fail? && PptExportPathAsWritten(env.cwd, path).Some? ==>
      Exported(PptExportPathAsWritten(env.cwd, path).value) !in PptRun(env, path, deviceName).events
        || ComFaultOf(env, path) == Some(CloseFault)
  {
    var pdf := PptExportPathAsWritten(env.cwd, path);
    if pdf.Some? {
      ExportIsNotOffice(env.cwd, path);
      var ex := ExportRun(env, path, pdf.value);
      ExportFailures(env, path, pdf.value);
      assert PptRun(env, path, deviceName) == ExportAndPrintRun(env, path, pdf.value, deviceName);
      assert ex.outcome.Fail? ==> ExportAndPrintRun(env, path, pdf.value, deviceName) == ex;
    }
  }

  /** The export fails only through PowerPoint, and the PDF is left behind by
      a failing export exactly when Close is what failed. */
  lemma ExportFailures(env: Env, path: string, pdf: string)
    ensures ExportRun(env, path, pdf).outcome.Fail? ==>
      ExportRun(env, path, pdf).outcome == Fail(AutomationFailed(PowerPointApp))
      && (Exported(pdf) in ExportRun(env, path, pdf).events <==> ComFaultOf(env, path) == Some(CloseFault))
    ensures ExportRun(env, path, pdf).outcome.Ok? <==> ComFaultOf(env, path).None?
    ensures Quit(PowerPointApp) in ExportRun(env, path, pdf).events
        <==> ComFaultOf(env, path) !in {Some(LaunchFault), Some(CloseFault)}
    ensures ComFaultOf(env, path) == Some(CloseFault) ==> Exported(pdf) in ExportRun(env, path, pdf).events
  {
  }

  /** When Close fails, the PDF was already saved and nothing deletes it. */
  lemma CloseFaultKeepsPdf(env: Env, path: string, pdf: string, files: set<string>)
    requires ComFaultOf(env, path) == Some(CloseFault)
    ensures FilesAfter(files, ExportRun(env, path, pdf).events) == files + {pdf}
  {
    var a := [Launched(PowerPointApp), Opened(PowerPointApp, path)];
    assert ExportRun(env, path, pdf).events == a + [Exported(pdf)];
    FilesAfterKept(files, a);
    FilesAfterConcat(files, a, [Exported(pdf)]);
    FilesAfterOne(files, Exported(pdf));
  }

  /** A type outside the supported eleven runs no handler: no submission, no
      file touched, and print returns normally. */
  lemma UnknownTypeDoesNothing(env: Env, path: string, deviceName: string, files: set<string>)
    requires FirstNamed(env.devices, deviceName).Some?
    requires Lower(ExtensionOf(path)) !in Table
    ensures PrintRun(env, path, deviceName) == Run(Ok, [])
    ensures Jobs(PrintRun(env, path, deviceName).events) == []
    ensures FilesAfter(files, PrintRun(env, path, deviceName).events) == files
  {
    ClassifyCases(ExtensionOf(path));
  }

  /** A JPEG, GIF or PNG file is submitted once, as itself, in portrait, with
      its own flavour, to the resolved device; no file is touched. */
  lemma RasterSubmitsOnce(env: Env, path: string, deviceName: string, files: set<string>, flavor: Flavor)
    requires FirstNamed(env.devices, deviceName).Some?
    requires Classify(ExtensionOf(path)) == Raster(flavor)
    ensures PrintRun(env, path, deviceName).outcome == Ok
    ensures Jobs(PrintRun(env, path, deviceName).events)
         == [Job(path, flavor, Portrait, env.devices[FirstNamed(env.devices, deviceName).value])]
    ensures FilesAfter(files, PrintRun(env, path, deviceName).events) == files
  {
    var evs := PrintRun(env, path, deviceName).events;
    assert |evs| == 1 && evs[..0] == [];
  }

  /** A readable PDF of N pages is printed as N jobs, in page order, each the
      page's image TempPath(ParentOf(path), k), in landscape, as PNG, to the
      resolved device, whether or not the spooler accepts them; afterwards no
      page image exists and no other file has changed. */
  lemma PdfPrintsEveryPage(env: Env, path: string, deviceName: string, files: set<string>)
    requires FirstNamed(env.devices, deviceName).Some?
    requires Classify(ExtensionOf(path)) == Pdf
    requires path in env.pdfs && env.pdfs[path].fault.None?
    ensures PrintRun(env, path, deviceName).outcome == Ok
    ensures |Jobs(PrintRun(env, path, deviceName).events)| == env.pdfs[path].pageCount
    ensures forall k :: 0 <= k < env.pdfs[path].pageCount ==>
      Jobs(PrintRun(env, path, deviceName).events)[k]
        == Job(TempPath(ParentOf(path), k), Png, Landscape, env.devices[FirstNamed(env.devices, deviceName).value])
    ensures FilesAfter(files, PrintRun(env, path, deviceName).events)
         == files - TempSet(ParentOf(path), env.pdfs[path].pageCount)
  {
    var d := env.devices[FirstNamed(env.devices, deviceName).value];
    var n := env.pdfs[path].pageCount;
    var pages := PagesEvents(env, ParentOf(path), Png, Some(d), n);
    assert PrintRun(env, path, deviceName).events == pages + [];
    assert pages + [] == pages;
    PagesSubmitInOrder(env, ParentOf(path), Png, d, n);
    PagesLeaveNoFile(env, files, ParentOf(path), Png, Some(d), n);
  }

  /** In a readable PDF, page k's image is written, submitted and deleted as
      effects 3k, 3k+1 and 3k+2. */
  lemma PdfPageTurn(env: Env, path: string, deviceName: string, k: nat)
    requires FirstNamed(env.devices, deviceName).Some?
    requires Classify(ExtensionOf(path)) == Pdf
    requires path in env.pdfs && env.pdfs[path].fault.None? && k < env.pdfs[path].pageCount
    ensures |PrintRun(env, path, deviceName).events| == 3 * env.pdfs[path].pageCount
    ensures PrintRun(env, path, deviceName).events[3 * k..3 * k + 3] ==
      var d := env.devices[FirstNamed(env.devices, deviceName).value];
      var f := TempPath(ParentOf(path), k);
      var job := Job(f, Png, Landscape, d);
      [TempWritten(f), Submitted(job, job !in env.rejected), Deleted(f)]
  {
    var d := env.devices[FirstNamed(env.devices, deviceName).value];
    var n := env.pdfs[path].pageCount;
    var pages := PagesEvents(env, ParentOf(path), Png, Some(d), n);
    assert PrintRun(env, path, deviceName).events == pages + [];
    assert pages + [] == pages;
    PageTurnInPlace(env, ParentOf(path), Png, d, n, k);
  }

  /** A failure on page k stops the loop there: pages before k are printed
      and cleaned up as usual and nothing later happens. Page k's image is
      left behind when it was created but could not be written; a file of that
      name that existed before is removed when the image could not be created,
      and kept when the page could not be rendered. */
  lemma PdfStopsAtFault(env: Env, path: string, deviceName: string, files: set<string>)
    requires FirstNamed(env.devices, deviceName).Some?
    requires Classify(ExtensionOf(path)) == Pdf
    requires path in env.pdfs && env.pdfs[path].fault.Some?
    requires env.pdfs[path].fault.value.page < env.pdfs[path].pageCount
    ensures PrintRun(env, path, deviceName).outcome == Ok
    ensures |Jobs(PrintRun(env, path, deviceName).events)| == env.pdfs[path].fault.value.page
    ensures forall j :: 0 <= j < env.pdfs[path].fault.value.page ==>
      Jobs(PrintRun(env, path, deviceName).events)[j]
        == Job(TempPath(ParentOf(path), j), Png, Landscape, env.devices[FirstNamed(env.devices, deviceName).value])
    ensures FilesAfter(files, PrintRun(env, path, deviceName).events)
         == var k := env.pdfs[path].fault.value.page;
            var done := files - TempSet(ParentOf(path), k);
            if env.pdfs[path].fault.value.CreateFault? then done - {TempPath(ParentOf(path), k)}
            else if env.pdfs[path].fault.value.WriteFault? then done + {TempPath(ParentOf(path), k)}
            else done
    ensures TempPath(ParentOf(path), env.pdfs[path].fault.value.page)
              in FilesAfter(files, PrintRun(env, path, deviceName).events)
        <==> env.pdfs[path].fault.value.WriteFault?
             || (env.pdfs[path].fault.value.RenderFault?
                 && TempPath(ParentOf(path), env.pdfs[path].fault.value.page) in files)
  {
    var d := env.devices[FirstNamed(env.devices, deviceName).value];
    StoppedPdfRun(env, path, deviceName);
    StoppedLoopJobs(env, ParentOf(path), d, env.pdfs[path]);
    StoppedLoopFiles(env, files, ParentOf(path), d, env.pdfs[path]);
  }

  /** The jobs of a loop stopped by a failing page k are those of pages 0 to k - 1. */
  lemma StoppedLoopJobs(env: Env, parent: Option<string>, d: Device, doc: PdfDoc)
    requires doc.fault.Some?
    ensures var evs := PagesEvents(env, parent, Png, Some(d), doc.fault.value.page)
                       + StoppedTurn(parent, doc, doc.fault.value.page);
            |Jobs(evs)| == doc.fault.value.page
            && forall j :: 0 <= j < doc.fault.value.page ==> Jobs(evs)[j] == Job(TempPath(parent, j), Png, Landscape, d)
  {
    var k := doc.fault.value.page;
    var pages := PagesEvents(env, parent, Png, Some(d), k);
    var tail := StoppedTurn(parent, doc, k);
    PagesSubmitInOrder(env, parent, Png, d, k);
    JobsConcat(pages, tail);
    if tail != [] {
      assert tail[..0] == [];
    }
    assert Jobs(tail) == [];
  }

  /** The files left by a loop stopped by a failing page k: the images of
      pages 0 to k - 1 are gone, and page k's image as its fault leaves it. */
  lemma StoppedLoopFiles(env: Env, files: set<string>, parent: Option<string>, d: Device, doc: PdfDoc)
    requires doc.fault.Some?
    ensures var k := doc.fault.value.page;
            var after := FilesAfter(files, PagesEvents(env, parent, Png, Some(d), k) + StoppedTurn(parent, doc, k));
            var done := files - TempSet(parent, k);
            && after == (if doc.fault.value.CreateFault? then done - {TempPath(parent, k)}
                         else if doc.fault.value.WriteFault? then done + {TempPath(parent, k)}
                         else done)
            && (TempPath(parent, k) in after
                <==> doc.fault.value.WriteFault? || (doc.fault.value.RenderFault? && TempPath(parent, k) in files))
  {
    var k := doc.fault.value.page;
    var pages := PagesEvents(env, parent, Png, Some(d), k);
    var tail := StoppedTurn(parent, doc, k);
    PagesLeaveNoFile(env, files, parent, Png, Some(d), k);
    FilesAfterConcat(files, pages, tail);
    if tail != [] {
      assert tail[..0] == [];
    }
    TempSetHoldsEarlierPages(parent, k, k);
  }

  /** A PDF whose page k fails: print returns normally after the first k
      turns and the failing turn's own effects. */
  lemma StoppedPdfRun(env: Env, path: string, deviceName: string)
    requires FirstNamed(env.devices, deviceName).Some?
    requires Classify(ExtensionOf(path)) == Pdf
    requires path in env.pdfs && env.pdfs[path].fault.Some?
    requires env.pdfs[path].fault.value.page < env.pdfs[path].pageCount
    ensures PrintRun(env, path, deviceName)
         == Run(Ok, PagesEvents(env, ParentOf(path), Png, Some(env.devices[FirstNamed(env.devices, deviceName).value]),
                                env.pdfs[path].fault.value.page)
                    + StoppedTurn(ParentOf(path), env.pdfs[path], env.pdfs[path].fault.value.page))
  {
  }

  /** Printing through Word or Excel creates and deletes no file. */
  lemma OfficeKeepsFiles(env: Env, path: string, deviceName: string, files: set<string>)
    ensures FilesAfter(files, WordRun(env, path, deviceName).events) == files
    ensures FilesAfter(files, ExcelRun(env, path, deviceName).events) == files
  {
    FilesAfterKept(files, WordRun(env, path, deviceName).events);
    FilesAfterKept(files, ExcelRun(env, path, deviceName).events);
  }

  /** A clean export creates the PDF and nothing else. */
  lemma ExportCreatesPdf(files: set<string>, path: string, pdf: string)
    ensures FilesAfter(files, ExportEvents(path, pdf)) == files + {pdf}
  {
    var a := [Launched(PowerPointApp), Opened(PowerPointApp, path)];
    var b := [Closed(PowerPointApp), Quit(PowerPointApp)];
    assert ExportEvents(path, pdf) == a + [Exported(pdf)] + b;
    FilesAfterKept(files, a);
    FilesAfterConcat(files, a, [Exported(pdf)]);
    FilesAfterOne(files, Exported(pdf));
    FilesAfterConcat(files, a + [Exported(pdf)], b);
    FilesAfterKept(files + {pdf}, b);
  }

  /** printWord and printExcel return at once on an empty path. */
  lemma OfficeEmptyPathDoesNothing(env: Env, deviceName: string)
    ensures WordRun(env, [], deviceName) == Run(Ok, [])
    ensures ExcelRun(env, [], deviceName) == Run(Ok, [])
  {
  }

  /** Word is quit exactly when the document was opened; a failure before that
      escapes print and leaves a started Word running. */
  lemma WordQuitsOnceOpened(env: Env, path: string, deviceName: string)
    ensures Quit(WordApp) in WordRun(env, path, deviceName).events
        <==> Opened(WordApp, path) in WordRun(env, path, deviceName).events
    ensures Launched(WordApp) in WordRun(env, path, deviceName).events
            && Quit(WordApp) !in WordRun(env, path, deviceName).events
        <==> path != [] && ComFaultOf(env, path) == Some(OpenFault)
    ensures Quit(WordApp) in WordRun(env, path, deviceName).events
        ==> WordRun(env, path, deviceName).outcome == Ok
  {
  }

  /** Once Excel has started it is always quit, as the last effect, and
      printExcel then returns normally. */
  lemma ExcelAlwaysQuits(env: Env, path: string, deviceName: string)
    ensures Launched(ExcelApp) in ExcelRun(env, path, deviceName).events
        ==> ExcelRun(env, path, deviceName).events[|ExcelRun(env, path, deviceName).events| - 1] == Quit(ExcelApp)
            && ExcelRun(env, path, deviceName).outcome == Ok
    ensures ExcelRun(env, path, deviceName).outcome.Fail?
        <==> path != [] && ComFaultOf(env, path) == Some(LaunchFault)
  {
  }

  /** A GIF, a PDF or an unknown type on an existing device never makes print throw. */
  lemma NestedPrintReturns(env: Env, path: string, deviceName: string)
    requires FirstNamed(env.devices, deviceName).Some?
    requires Classify(ExtensionOf(path)) in {Raster(Gif), Pdf, NoOp}
    ensures PrintRun(env, path, deviceName).outcome == Ok
  {
  }

  /** After a clean export of a slide deck, print returns normally, PowerPoint
      has been quit, the exported PDF has been printed through the PDF path
      (or, for an odd name, ignored) and then deleted: it is the last effect
      and no longer exists. */
  lemma PptRemovesExport(env: Env, path: string, deviceName: string, files: set<string>)
    requires FirstNamed(env.devices, deviceName).Some?
    requires Classify(ExtensionOf(path)) == Ppt
    requires PptExportPathAsWritten(env.cwd, path).Some? && ComFaultOf(env, path).None?
    ensures PrintRun(env, path, deviceName).outcome == Ok
    ensures Quit(PowerPointApp) in PrintRun(env, path, deviceName).events
    ensures PrintRun(env, path, deviceName).events[|PrintRun(env, path, deviceName).events| - 1]
         == Deleted(PptExportPathAsWritten(env.cwd, path).value)
    ensures PptExportPathAsWritten(env.cwd, path).value !in FilesAfter(files, PrintRun(env, path, deviceName).events)
  {
    var pdf := PptExportPathAsWritten(env.cwd, path).value;
    CleanPptRun(env, path, deviceName);
    var before := ExportEvents(path, pdf) + PrintRun(env, pdf, deviceName).events;
    assert before[4] == Quit(PowerPointApp);
    FilesAfterConcat(files, before, [Deleted(pdf)]);
    FilesAfterOne(FilesAfter(files, before), Deleted(pdf));
  }

  /** After a clean export, print of a deck is the export, the nested print of
      the PDF, which returns normally, and the PDF's deletion. */
  lemma CleanPptRun(env: Env, path: string, deviceName: string)
    requires FirstNamed(env.devices, deviceName).Some?
    requires Classify(ExtensionOf(path)) == Ppt
    requires PptExportPathAsWritten(env.cwd, path).Some? && ComFaultOf(env, path).None?
    ensures PrintRun(env, path, deviceName)
         == Run(Ok, ExportEvents(path, PptExportPathAsWritten(env.cwd, path).value)
                    + PrintRun(env, PptExportPathAsWritten(env.cwd, path).value, deviceName).events
                    + [Deleted(PptExportPathAsWritten(env.cwd, path).value)])
  {
    var pdf := PptExportPathAsWritten(env.cwd, path).value;
    ExportIsNotOffice(env.cwd, path);
    var tail := PrintAndDeleteEvents(env, pdf, deviceName);
    assert tail == PrintRun(env, pdf, deviceName).events + [Deleted(pdf)] by {
      NestedPrintReturns(env, pdf, deviceName);
    }
    assert PrintRun(env, path, deviceName) == PptRun(env, path, deviceName);
    assert PptRun(env, path, deviceName) == ExportAndPrintRun(env, path, pdf, deviceName);
    AppendTwice(ExportEvents(path, pdf), PrintRun(env, pdf, deviceName).events, [Deleted(pdf)]);
  }

  // ---------------------------------------------------------------------------
  // The AfterPrint overloads
  // ---------------------------------------------------------------------------

  lemma {:induction false} PagesHaveNoHook(env: Env, parent: Option<string>, flavor: Flavor,
                                           service: Option<Device>, n: nat)
    ensures HookRan !in PagesEvents(env, parent, flavor, service, n)
  {
    if n > 0 {
      PagesHaveNoHook(env, parent, flavor, service, n - 1);
    }
  }

  lemma PdfHasNoHook(env: Env, path: string, flavor: Flavor, service: Option<Device>)
    ensures HookRan !in PdfEvents(env, path, flavor, service)
  {
    if path in env.pdfs {
      PagesHaveNoHook(env, ParentOf(path), flavor, service, CompletedPages(env.pdfs[path]));
    }
  }

  /** print itself never runs the hook, not even through the nested print of
      an exported slide deck. */
  lemma {:induction false} PrintRunHasNoHook(env: Env, path: string, deviceName: string)
    ensures HookRan !in PrintRun(env, path, deviceName).events
    decreases if Classify(ExtensionOf(path)) == Ppt then 1 else 0, 1
  {
    var found := FirstNamed(env.devices, deviceName);
    if found.Some? {
      var d := env.devices[found.value];
      var h := Classify(ExtensionOf(path));
      if h == Pdf {
        assert PrintRun(env, path, deviceName).events == PdfEvents(env, path, Png, Some(d));
        PdfHasNoHook(env, path, Png, Some(d));
      } else if h == Ppt {
        assert PrintRun(env, path, deviceName) == PptRun(env, path, deviceName);
        PptRunHasNoHook(env, path, deviceName);
      } else if h.Raster? {
        assert PrintRun(env, path, deviceName).events == SubmitEvents(env, path, h.flavor, Portrait, Some(d));
      } else if h == Word {
        assert PrintRun(env, path, deviceName) == WordRun(env, path, deviceName);
      } else if h == Excel {
        assert PrintRun(env, path, deviceName) == ExcelRun(env, path, deviceName);
      }
    }
  }

  lemma {:induction false} PptRunHasNoHook(env: Env, path: string, deviceName: string)
    ensures HookRan !in PptRun(env, path, deviceName).events
    decreases 1, 0
  {
    var pdf := PptExportPathAsWritten(env.cwd, path);
    if pdf.Some? {
      ExportIsNotOffice(env.cwd, path);
      ExportAndPrintHasNoHook(env, path, pdf.value, deviceName);
    }
  }

  lemma {:induction false} ExportAndPrintHasNoHook(env: Env, path: string, pdf: string, deviceName: string)
    requires Classify(ExtensionOf(pdf)) != Ppt
    ensures HookRan !in ExportAndPrintRun(env, path, pdf, deviceName).events
    decreases 0, 3
  {
    if ExportRun(env, path, pdf).outcome.Ok? {
      PrintRunHasNoHook(env, pdf, deviceName);
      var nested := PrintRun(env, pdf, deviceName);
      assert PrintAndDeleteEvents(env, pdf, deviceName)
          == nested.events + (if nested.outcome.Ok? then [Deleted(pdf)] else []);
    }
  }

  /** The hook runs once, last, after a run that returned normally, and not at
      all after one that threw; the run's outcome is passed on. */
  lemma HookOnceAfterNormalReturn(run: Run)
    requires HookRan !in run.events
    ensures WithHook(run).outcome == run.outcome
    ensures multiset(WithHook(run).events)[HookRan] == if run.outcome.Ok? then 1 else 0
    ensures run.outcome.Ok? ==> WithHook(run).events == run.events + [HookRan]
  {
    assert multiset(run.events)[HookRan] == 0;
  }

  /** print(filePath, deviceName, afterPrint) runs the hook exactly once when
      print returns normally and never when it throws. */
  lemma PrintHookRunsOnce(env: Env, path: string, deviceName: string)
    ensures multiset(WithHook(PrintRun(env, path, deviceName)).events)[HookRan]
         == if PrintRun(env, path, deviceName).outcome.Ok? then 1 else 0
  {
    PrintRunHasNoHook(env, path, deviceName);
    HookOnceAfterNormalReturn(PrintRun(env, path, deviceName));
  }

  /** print(filePath, afterPrint) does the same around the default device. */
  lemma PrintToDefaultHookRunsOnce(env: Env, path: string)
    ensures multiset(WithHook(PrintToDefaultRun(env, path)).events)[HookRan]
         == if PrintToDefaultRun(env, path).outcome.Ok? then 1 else 0
  {
    if env.defaultDevice.Some? {
      PrintRunHasNoHook(env, path, env.defaultDevice.value.name);
    }
    HookOnceAfterNormalReturn(PrintToDefaultRun(env, path));
  }
}
