/** The string rules PrintUtil applies to file paths: the file type that
    `replaceAll(".*\\.", "")` leaves, the parent and name of a java.io.File
    (Unix rules, without path normalisation), the temporary image of a PDF
    page and the file a slide deck is exported to. */
module Paths {
  import opened Wrappers

  /** java.io.File's name separator on a Unix-like host. */
  const Sep: char := '/'

  /** The characters java.util.regex does not let `.` match (no DOTALL flag). */
  predicate IsLineTerminator(c: char) {
    c == '\n' || c == '\r' || c == '\U{0085}' || c == '\U{2028}' || c == '\U{2029}'
  }

  predicate HasLineTerminator(s: string) {
    exists i :: 0 <= i < |s| && IsLineTerminator(s[i])
  }

  function FirstTerminator(s: string): (k: nat)
    requires HasLineTerminator(s)
    ensures k < |s| && IsLineTerminator(s[k])
    ensures forall j :: 0 <= j < k ==> !IsLineTerminator(s[j])
  {
    if IsLineTerminator(s[0]) then 0
    else
      assert HasLineTerminator(s[1..]) by {
        var i :| 0 <= i < |s| && IsLineTerminator(s[i]);
        assert s[1..][i - 1] == s[i];
      }
      1 + FirstTerminator(s[1..])
  }

  // ---------------------------------------------------------------------------
  // File type: filePath.replaceAll(".*\\.", "")
  // ---------------------------------------------------------------------------

  /** What the greedy match `.*\.` leaves of one line: everything after its last
      dot, or the whole line when it has none. */
  function AfterLastDot(line: string): string {
    if line == [] then []
    else if line[|line| - 1] == '.' then []
    else AfterLastDot(line[..|line| - 1]) + [line[|line| - 1]]
  }

  /** The file type PrintUtil dispatches on. Java's replaceAll removes, in each
      run of characters between line terminators, everything up to and including
      the last dot of that run; the terminators themselves stay. */
  function ExtensionOf(path: string): string
    decreases |path|
  {
    if !HasLineTerminator(path) then AfterLastDot(path)
    else
      var k := FirstTerminator(path);
      AfterLastDot(path[..k]) + [path[k]] + ExtensionOf(path[k + 1..])
  }

  /** AfterLastDot keeps a dot-free suffix of the line. */
  lemma {:induction false} AfterLastDotIsDotFreeSuffix(line: string)
    ensures |AfterLastDot(line)| <= |line|
    ensures AfterLastDot(line) == line[|line| - |AfterLastDot(line)|..]
    ensures '.' !in AfterLastDot(line)
  {
    if line != [] && line[|line| - 1] != '.' {
      var init := line[..|line| - 1];
      var last := line[|line| - 1];
      AfterLastDotIsDotFreeSuffix(init);
      var r := AfterLastDot(init);
      assert AfterLastDot(line) == r + [last];
      assert line == init + [last];
      assert line[|line| - |r| - 1..] == init[|init| - |r|..] + [last];
    }
  }

  /** The suffix AfterLastDot keeps is the whole line exactly when the line has
      no dot; otherwise the line's last dot comes right before it. */
  lemma {:induction false} AfterLastDotFollowsLastDot(line: string)
    ensures '.' in line <==> |AfterLastDot(line)| < |line|
    ensures |AfterLastDot(line)| < |line| ==> line[|line| - |AfterLastDot(line)| - 1] == '.'
  {
    if line != [] && line[|line| - 1] != '.' {
      var init := line[..|line| - 1];
      var last := line[|line| - 1];
      AfterLastDotFollowsLastDot(init);
      var r := AfterLastDot(init);
      assert |AfterLastDot(line)| == |r| + 1;
      assert line == init + [last];
      assert '.' in line <==> '.' in init;
      if |r| < |init| {
        assert line[|line| - |r| - 2] == init[|init| - |r| - 1];
      }
    }
  }

  /** AfterLastDot keeps a dot-free suffix of the line that starts right after
      the line's last dot, and keeps the whole line exactly when it has no dot. */
  lemma AfterLastDotIsSuffix(line: string)
    ensures |AfterLastDot(line)| <= |line|
    ensures AfterLastDot(line) == line[|line| - |AfterLastDot(line)|..]
    ensures '.' !in AfterLastDot(line)
    ensures '.' in line <==> |AfterLastDot(line)| < |line|
    ensures |AfterLastDot(line)| < |line| ==> line[|line| - |AfterLastDot(line)| - 1] == '.'
  {
    AfterLastDotIsDotFreeSuffix(line);
    AfterLastDotFollowsLastDot(line);
  }

  /** On a path without line terminators (every realistic path) the file type is
      exactly the text after the last dot, or the whole path when there is no dot. */
  lemma {:induction false} ExtensionOfSingleLine(path: string)
    requires !HasLineTerminator(path)
    ensures |ExtensionOf(path)| <= |path|
    ensures ExtensionOf(path) == path[|path| - |ExtensionOf(path)|..]
    ensures '.' !in path ==> ExtensionOf(path) == path
    ensures '.' in path ==> |ExtensionOf(path)| < |path| && path[|path| - |ExtensionOf(path)| - 1] == '.'
  {
    assert ExtensionOf(path) == AfterLastDot(path);
    AfterLastDotIsSuffix(path);
  }

  /** The file type never contains a dot. */
  lemma {:induction false} ExtensionHasNoDot(path: string)
    ensures '.' !in ExtensionOf(path)
    decreases |path|
  {
    if !HasLineTerminator(path) {
      assert ExtensionOf(path) == AfterLastDot(path);
      AfterLastDotIsSuffix(path);
    } else {
      var k := FirstTerminator(path);
      var a, rest := AfterLastDot(path[..k]), ExtensionOf(path[k + 1..]);
      AfterLastDotIsSuffix(path[..k]);
      ExtensionHasNoDot(path[k + 1..]);
      assert '.' !in a && '.' !in rest;
      assert ExtensionOf(path) == a + [path[k]] + rest;
      assert path[k] != '.';
    }
  }

  /** Text in front of a line that holds a dot does not change what that line leaves. */
  lemma {:induction false} AfterLastDotIgnoresPrefix(a: string, t: string)
    requires '.' in t
    ensures AfterLastDot(a + t) == AfterLastDot(t)
    decreases |t|
  {
    var at := a + t;
    var last := t[|t| - 1];
    assert at[|at| - 1] == last;
    if last == '.' {
      assert AfterLastDot(at) == [] == AfterLastDot(t);
    } else {
      var init := t[..|t| - 1];
      assert t == init + [last];
      assert '.' in init;
      assert at[..|at| - 1] == a + init;
      AfterLastDotIgnoresPrefix(a, init);
      assert AfterLastDot(at) == AfterLastDot(a + init) + [last];
    }
  }

  /** Whatever precedes ".pdf", the file type of the result ends in 'f'. */
  lemma PdfFileTypeEndsInF(prefix: string)
    ensures |ExtensionOf(prefix + ".pdf")| > 0
    ensures ExtensionOf(prefix + ".pdf")[|ExtensionOf(prefix + ".pdf")| - 1] == 'f'
  {
    assert !HasLineTerminator(".pdf") by {
      forall i | 0 <= i < 4 ensures !IsLineTerminator(".pdf"[i]) { }
    }
    assert ".pdf"[0] == '.';
    assert AfterLastDot(".pdf") == "pdf" by {
      assert ".pdf"[..3] == ".pd" && ".pd"[..2] == ".p" && ".p"[..1] == ".";
    }
    ExtensionOfEndsWith(prefix, ".pdf");
  }

  /** FirstTerminator finds the first terminator. */
  lemma {:induction false} FirstTerminatorIs(s: string, k: nat)
    requires k < |s| && IsLineTerminator(s[k])
    requires forall j :: 0 <= j < k ==> !IsLineTerminator(s[j])
    ensures HasLineTerminator(s) && FirstTerminator(s) == k
    decreases k
  {
    if k > 0 {
      assert s[1..][k - 1] == s[k];
      FirstTerminatorIs(s[1..], k - 1);
    }
  }

  /** When a path ends in a line that holds a dot, the file type ends with what
      that line leaves. */
  lemma {:induction false} ExtensionOfEndsWith(p: string, t: string)
    requires !HasLineTerminator(t) && '.' in t
    ensures |AfterLastDot(t)| <= |ExtensionOf(p + t)|
    ensures ExtensionOf(p + t)[|ExtensionOf(p + t)| - |AfterLastDot(t)|..] == AfterLastDot(t)
    decreases |p|
  {
    if !HasLineTerminator(p) {
      assert ExtensionOf(p + t) == AfterLastDot(p + t) by {
        forall i | 0 <= i < |p + t|
          ensures !IsLineTerminator((p + t)[i])
        {
          if i < |p| {
            assert (p + t)[i] == p[i];
          } else {
            assert (p + t)[i] == t[i - |p|];
          }
        }
      }
      AfterLastDotIgnoresPrefix(p, t);
    } else {
      var k := FirstTerminator(p);
      var front := AfterLastDot(p[..k]) + [p[k]];
      var e := ExtensionOf(p[k + 1..] + t);
      assert ExtensionOf(p + t) == front + e by {
        FirstTerminatorIs(p + t, k);
        assert (p + t)[..k] == p[..k];
        assert (p + t)[k + 1..] == p[k + 1..] + t;
      }
      ExtensionOfEndsWith(p[k + 1..], t);
      assert (front + e)[|front + e| - |AfterLastDot(t)|..] == e[|e| - |AfterLastDot(t)|..];
    }
  }


  // ---------------------------------------------------------------------------
  // Decimal rendering of an int, as Java's string concatenation writes it
  // ---------------------------------------------------------------------------

  function Digit(d: nat): char
    requires d < 10
  {
    ('0' as int + d) as char
  }

  function DigitValue(c: char): nat {
    if '0' <= c <= '9' then c as int - '0' as int else 0
  }

  /** The decimal text of a page index ("temp_" + i). */
  function DecimalString(n: nat): string
    decreases n
  {
    if n < 10 then [Digit(n)] else DecimalString(n / 10) + [Digit(n % 10)]
  }

  function ParseDecimal(s: string): nat
    decreases |s|
  {
    if s == [] then 0 else ParseDecimal(s[..|s| - 1]) * 10 + DigitValue(s[|s| - 1])
  }

  /** Reading the decimal text back gives the index again, so different pages
      get different texts. */
  lemma {:induction false} DecimalRoundTrip(n: nat)
    ensures ParseDecimal(DecimalString(n)) == n
    decreases n
  {
    var s := DecimalString(n);
    if n < 10 {
      assert s[..0] == [];
    } else {
      DecimalRoundTrip(n / 10);
      assert s[..|s| - 1] == DecimalString(n / 10);
    }
  }

  // ---------------------------------------------------------------------------
  // java.io.File: getParent, getName, getAbsolutePath, File(parent, child)
  // ---------------------------------------------------------------------------

  /** Position of the last occurrence of `c` in `s`, as String.lastIndexOf. */
  function LastIndexOf(s: string, c: char): (r: Option<nat>)
    ensures r.Some? ==> r.value < |s| && s[r.value] == c && c !in s[r.value + 1..]
    ensures r.None? ==> c !in s
  {
    if s == [] then None
    else if s[|s| - 1] == c then Some(|s| - 1)
    else
      assert s == s[..|s| - 1] + [s[|s| - 1]];
      var r := LastIndexOf(s[..|s| - 1], c);
      if r.Some? then assert s[r.value + 1..] == s[..|s| - 1][r.value + 1..] + [s[|s| - 1]]; r
      else r
  }

  /** Length of the root prefix of a Unix path: 1 for an absolute path. */
  function PrefixLength(p: string): nat {
    if |p| > 0 && p[0] == Sep then 1 else 0
  }

  /** File.getParent(): the text before the last separator; the root for a file
      directly under it; null (None) when the path names no directory. */
  function ParentOf(p: string): Option<string> {
    var n := PrefixLength(p);
    var i := LastIndexOf(p, Sep);
    if i.Some? && i.value >= n then Some(p[..i.value])
    else if n > 0 && |p| > n then Some(p[..n])
    else None
  }

  /** File.getName(): the text after the last separator. */
  function NameOf(p: string): string {
    var n := PrefixLength(p);
    var i := LastIndexOf(p, Sep);
    if i.Some? && i.value >= n then p[i.value + 1..] else p[n..]
  }

  /** The Unix rule java.io.File uses to put a child path under a parent
      (File(parent, child), and getAbsolutePath against the working directory). */
  function Resolve(parent: string, child: string): string {
    if child == [] then parent
    else if parent == [Sep] then parent + child
    else parent + [Sep] + child
  }

  /** File.getAbsolutePath(): an absolute path is kept, a relative one is
      resolved against the working directory `cwd`. */
  function AbsolutePath(cwd: string, p: string): string {
    if PrefixLength(p) == 1 then p else Resolve(cwd, p)
  }

  /** Java renders a null reference as "null" when it concatenates strings. */
  function TextOf(s: Option<string>): string {
    match s
    case Some(t) => t
    case None => "null"
  }

  /** The temporary image of page `i` of a PDF whose parent directory is
      `parent`: parent + separator + "temp_" + i + ".png". */
  function TempPath(parent: Option<string>, i: nat): string {
    TextOf(parent) + [Sep] + "temp_" + DecimalString(i) + ".png"
  }

  /** The decimal text of a page index holds only digits. */
  lemma {:induction false} DecimalHasNoSeparator(n: nat)
    ensures Sep !in DecimalString(n)
    decreases n
  {
    if n >= 10 {
      DecimalHasNoSeparator(n / 10);
    }
  }

  /** A PDF named without a directory has no parent, so its page images go
      under a directory called "null" (Java's text for the missing parent),
      not next to the PDF. */
  lemma ParentlessTempPath(path: string, i: nat)
    requires Sep !in path
    ensures ParentOf(path) == None
    ensures ParentOf(TempPath(ParentOf(path), i)) == Some("null")
    ensures NameOf(TempPath(ParentOf(path), i)) == "temp_" + DecimalString(i) + ".png"
  {
    DecimalHasNoSeparator(i);
    var name := "temp_" + DecimalString(i) + ".png";
    assert "temp_" == ['t', 'e', 'm', 'p', '_'] && ".png" == ['.', 'p', 'n', 'g'];
    assert Sep !in name;
    assert TempPath(None, i) == Resolve("null", name);
    ResolveLandsInDirectory("null", name);
  }

  /** Within one directory, different pages use different temporary files. */
  lemma TempPathsDistinct(parent: Option<string>, i: nat, j: nat)
    requires TempPath(parent, i) == TempPath(parent, j)
    ensures i == j
  {
    var a := TextOf(parent) + [Sep] + "temp_";
    var di, dj := DecimalString(i), DecimalString(j);
    var s := TempPath(parent, i);
    assert s == a + di + ".png";
    assert s == a + dj + ".png";
    assert |di| == |dj|;
    assert s[|a|..|a| + |di|] == di;
    assert s[|a|..|a| + |dj|] == dj;
    DecimalRoundTrip(i);
    DecimalRoundTrip(j);
  }

  /** The PDF a slide deck is exported to and printed from, as the code
      writes it: the file named by the parent's absolute path + name + ".pdf",
      with no separator in between, taken as an absolute path (SaveAs and the
      nested print both receive getAbsolutePath()). None when the deck path
      has no parent (getParentFile() is null). */
  function PptExportPathAsWritten(cwd: string, path: string): Option<string> {
    match ParentOf(path)
    case None => None
    case Some(parent) => Some(AbsolutePath(cwd, AbsolutePath(cwd, parent) + NameOf(path) + ".pdf"))
  }

  /** The PDF a slide deck is evidently meant to be exported to: a file named
      name + ".pdf" inside the deck's own directory. */
  function PptExportPath(cwd: string, path: string): Option<string> {
    match ParentOf(path)
    case None => None
    case Some(parent) => Some(AbsolutePath(cwd, Resolve(AbsolutePath(cwd, parent), NameOf(path) + ".pdf")))
  }

  /** As written, a deck in an absolute directory is exported to the directory
      text, then the name, then ".pdf", with nothing in between. */
  lemma AsWrittenJoinsWithoutSeparator(cwd: string, dir: string, name: string)
    requires dir != [] && dir[0] == Sep && name != [] && Sep !in name
    requires dir == [Sep] || dir[|dir| - 1] != Sep
    ensures PptExportPathAsWritten(cwd, Resolve(dir, name)) == Some(dir + name + ".pdf")
  {
    ResolveLandsInDirectory(dir, name);
    assert AbsolutePath(cwd, dir) == dir;
    assert (dir + name + ".pdf")[0] == Sep;
  }

  /** As written, the export of "/d/x.ppt" is "/dx.ppt.pdf", which lies in "/",
      not in the deck's directory "/d". */
  lemma PptExportAsWrittenLeavesDirectory()
    ensures PptExportPathAsWritten("/", "/d/x.ppt") == Some("/dx.ppt.pdf")
    ensures ParentOf("/d/x.ppt") == Some("/d")
    ensures ParentOf("/dx.ppt.pdf") == Some("/")
  {
    var deck, pdf := "/d/x.ppt", "/dx.ppt.pdf";
    assert deck == Resolve("/d", "x.ppt");
    assert "x.ppt" == ['x', '.', 'p', 'p', 't'];
    ResolveLandsInDirectory("/d", "x.ppt");
    AsWrittenJoinsWithoutSeparator("/", "/d", "x.ppt");
    assert "/d" + "x.ppt" + ".pdf" == pdf;
    assert pdf == Resolve([Sep], "dx.ppt.pdf");
    ResolveLandsInDirectory([Sep], "dx.ppt.pdf");
  }

  /** For a deck directly under the root the separator-free join does no
      harm: the as-written export is the corrected one, "/" + name + ".pdf". */
  lemma AsWrittenAgreesAtRoot(cwd: string, name: string)
    requires name != [] && Sep !in name
    ensures PptExportPathAsWritten(cwd, Resolve([Sep], name)) == Some([Sep] + name + ".pdf")
    ensures PptExportPath(cwd, Resolve([Sep], name)) == Some([Sep] + name + ".pdf")
  {
    AsWrittenJoinsWithoutSeparator(cwd, [Sep], name);
    ResolveLandsInDirectory([Sep], name);
    assert AbsolutePath(cwd, [Sep]) == [Sep];
    assert Resolve([Sep], name + ".pdf") == [Sep] + name + ".pdf";
    assert ([Sep] + name + ".pdf")[0] == Sep;
  }

  /** A deck named relative to the working directory: as written, its
      directory's text is glued to the deck's name, so the export is the
      working directory, a separator, dir, name and ".pdf". */
  lemma AsWrittenRelativeDirectory(cwd: string, dir: string, name: string)
    requires |cwd| > 1 && cwd[0] == Sep
    requires dir != [] && Sep !in dir && name != [] && Sep !in name
    ensures PptExportPathAsWritten(cwd, Resolve(dir, name)) == Some(cwd + [Sep] + dir + name + ".pdf")
  {
    ResolveLandsInDirectory(dir, name);
    assert dir[0] != Sep by {
      assert dir[0] in dir;
    }
    assert AbsolutePath(cwd, dir) == cwd + [Sep] + dir;
    assert (cwd + [Sep] + dir + name + ".pdf")[0] == Sep;
  }

  /** Where that export lands: in the working directory itself, under the
      name dir + name + ".pdf". As java.io.File keeps "." and ".." segments,
      the deck "./x.ppt" is thus exported to the hidden file ".x.ppt.pdf"
      beside it, and "../x.ppt" to "..x.ppt.pdf" in a child of its directory. */
  lemma AsWrittenRelativeLandsInWorkingDirectory(cwd: string, dir: string, name: string)
    requires |cwd| > 1 && cwd[0] == Sep && cwd[|cwd| - 1] != Sep
    requires dir != [] && Sep !in dir && name != [] && Sep !in name
    ensures ParentOf(cwd + [Sep] + dir + name + ".pdf") == Some(cwd)
    ensures NameOf(cwd + [Sep] + dir + name + ".pdf") == dir + name + ".pdf"
  {
    var pdf := dir + name + ".pdf";
    assert Sep !in pdf by {
      assert ".pdf" == ['.', 'p', 'd', 'f'];
    }
    assert cwd + [Sep] + dir + name + ".pdf" == Resolve(cwd, pdf);
    ResolveLandsInDirectory(cwd, pdf);
  }

  /** The last separator is the one after which no separator follows. */
  lemma {:induction false} LastIndexOfIsLast(s: string, c: char, k: nat)
    requires k < |s| && s[k] == c && c !in s[k + 1..]
    ensures LastIndexOf(s, c) == Some(k)
    decreases |s|
  {
    if k < |s| - 1 {
      assert s[|s| - 1] in s[k + 1..];
      assert s[..|s| - 1][k + 1..] == s[k + 1..|s| - 1];
      LastIndexOfIsLast(s[..|s| - 1], c, k);
    }
  }

  /** A name resolved against a (normalised) directory lands in that directory
      under that name: what the corrected export path relies on. */
  lemma {:induction false} ResolveLandsInDirectory(dir: string, name: string)
    requires dir != [] && name != [] && Sep !in name
    requires dir == [Sep] || dir[|dir| - 1] != Sep
    ensures ParentOf(Resolve(dir, name)) == Some(dir)
    ensures NameOf(Resolve(dir, name)) == name
  {
    var r := Resolve(dir, name);
    var k := if dir == [Sep] then 0 else |dir|;
    assert r[k] == Sep;
    assert r[k + 1..] == name;
    LastIndexOfIsLast(r, Sep, k);
    if dir == [Sep] {
      assert PrefixLength(r) == 1;
      assert r[..1] == dir;
    } else {
      assert r[..k] == dir;
      assert PrefixLength(r) <= 1 <= k;
    }
  }

  /** Corrected, a deck in an absolute directory is exported next to itself:
      into the same directory, under its own name followed by ".pdf". */
  lemma PptExportStaysInDirectory(cwd: string, dir: string, name: string)
    requires dir != [] && dir[0] == Sep && name != [] && Sep !in name
    requires dir == [Sep] || dir[|dir| - 1] != Sep
    ensures PptExportPath(cwd, Resolve(dir, name)).Some?
    ensures ParentOf(PptExportPath(cwd, Resolve(dir, name)).value) == Some(dir)
    ensures NameOf(PptExportPath(cwd, Resolve(dir, name)).value) == name + ".pdf"
  {
    ResolveLandsInDirectory(dir, name);
    assert AbsolutePath(cwd, dir) == dir;
    var pdf := Resolve(dir, name + ".pdf");
    assert pdf[0] == Sep;
    assert Sep !in name + ".pdf";
    ResolveLandsInDirectory(dir, name + ".pdf");
  }

  /** A file name never contains the separator. */
  lemma NameHasNoSeparator(p: string)
    ensures Sep !in NameOf(p)
  {
    var n := PrefixLength(p);
    var i := LastIndexOf(p, Sep);
    if !(i.Some? && i.value >= n) {
      if i.Some? {
        assert i.value == 0 && n == 1;
      }
    }
  }
}
