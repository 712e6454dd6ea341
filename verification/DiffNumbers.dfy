/**
 On a well-formed diff the numbers that `fix-changelogs.ts` collects are those of the added bullets in
 the new file.
 */
module DiffNumbers {
  import opened DiffPairing

  datatype BodyLine = Add(content: Content) | Delete(content: Content) | Keep(content: Content)

  datatype HunkDiff = HunkDiff(oldStart: nat, newStart: nat, body: seq<BodyLine>)

  datatype FileDiff = FileDiff(path: string, hunks: seq<HunkDiff>)

  /** What a hunk says about the new file. */
  function NewSide(body: seq<BodyLine>): seq<Content> {
    if body == [] then []
    else
      var l := body[|body| - 1];
      NewSide(body[..|body| - 1]) + if l.Delete? then [] else [l.content]
  }

  // ----- The lines of a diff

  function BodyLineText(l: BodyLine): DiffLine {
    match l
    case Add(content) => Added(content)
    case Delete(content) => Removed(content)
    case Keep(content) => Context(content)
  }

  function BodyText(body: seq<BodyLine>): seq<DiffLine> {
    seq(|body|, i requires 0 <= i < |body| => BodyLineText(body[i]))
  }

  function HunkText(h: HunkDiff): seq<DiffLine> {
    [HunkStart(h.oldStart, h.newStart)] + BodyText(h.body)
  }

  function HunksText(hunks: seq<HunkDiff>): seq<DiffLine> {
    if hunks == [] then [] else HunksText(hunks[..|hunks| - 1]) + HunkText(hunks[|hunks| - 1])
  }

  /** The header names the old file too; its `---` line looks like a removed line. */
  function FileText(f: FileDiff): seq<DiffLine> {
    [FileStart, Other, Removed(Plain), NewPath(f.path)] + HunksText(f.hunks)
  }

  function DiffText(files: seq<FileDiff>): seq<DiffLine> {
    if files == [] then [] else DiffText(files[..|files| - 1]) + FileText(files[|files| - 1])
  }

  // ----- What is read

  datatype Found = Found(additions: seq<Addition>, removals: seq<Removal>, headings: set<HunkRef>)

  function FoundIn(r: Reader): Found { Found(r.additions, r.removals, r.headings) }

  function Join(a: Found, b: Found): Found {
    Found(a.additions + b.additions, a.removals + b.removals, a.headings + b.headings)
  }

  const NOTHING: Found := Found([], [], {})

  function FoundLine(l: BodyLine, at: nat, here: HunkRef): Found {
    match l
    case Add(ReleaseHeading) => Found([], [], {here})
    case Add(Bullet(key)) => Found([Addition(at, key, here)], [], {})
    case Delete(Bullet(key)) => Found([], [Removal(key, here)], {})
    case _ => NOTHING
  }

  function FoundInBody(body: seq<BodyLine>, start: nat, here: HunkRef): Found {
    if body == [] then NOTHING
    else
      var n := |body| - 1;
      Join(FoundInBody(body[..n], start, here), FoundLine(body[n], start + |NewSide(body[..n])|, here))
  }

  function FoundInHunks(path: string, hunks: seq<HunkDiff>): Found {
    if hunks == [] then NOTHING
    else
      var n := |hunks| - 1;
      Join(FoundInHunks(path, hunks[..n]), FoundInBody(hunks[n].body, hunks[n].newStart, HunkRef(path, n)))
  }

  function FoundInFiles(files: seq<FileDiff>): Found {
    if files == [] then NOTHING
    else
      var n := |files| - 1;
      Join(FoundInFiles(files[..n]), FoundInHunks(files[n].path, files[n].hunks))
  }

  lemma {:induction false} JoinAssociates(a: Found, b: Found, c: Found)
    ensures Join(a, Join(b, c)) == Join(Join(a, b), c)
    ensures Join(a, NOTHING) == a
  {
    assert a.additions + (b.additions + c.additions) == a.additions + b.additions + c.additions;
    assert a.removals + (b.removals + c.removals) == a.removals + b.removals + c.removals;
  }

  lemma {:induction false} ReadConcat(r: Reader, x: seq<DiffLine>, y: seq<DiffLine>)
    ensures ReadFrom(r, x + y) == ReadFrom(ReadFrom(r, x), y)
  {
    if y == [] {
      assert x + y == x;
    } else {
      assert (x + y)[..|x + y| - 1] == x + y[..|y| - 1];
      ReadConcat(r, x, y[..|y| - 1]);
    }
  }

  lemma {:induction false} ReadBodyLine(r: Reader, l: BodyLine)
    requires InHunk(r)
    ensures var after := ReadLine(r, BodyLineText(l));
            && after.path == r.path && after.hunk == r.hunk
            && after.newLine == r.newLine + (if l.Delete? then 0 else 1)
            && FoundIn(after) == Join(FoundIn(r), FoundLine(l, r.newLine, HunkRef(r.path, r.hunk)))
  {
    JoinAssociates(FoundIn(r), NOTHING, NOTHING);
  }

  /** Reading this text leaves the reader in its hunk, with these findings. */
  ghost predicate ReadsBody(r: Reader, after: Reader, body: seq<BodyLine>)
    requires InHunk(r)
  {
    && after.path == r.path && after.hunk == r.hunk && after.newLine == r.newLine + |NewSide(body)|
    && FoundIn(after) == Join(FoundIn(r), FoundInBody(body, r.newLine, HunkRef(r.path, r.hunk)))
  }

  lemma {:induction false} ReadOneMore(r: Reader, before: Reader, body: seq<BodyLine>)
    requires InHunk(r) && body != [] && ReadsBody(r, before, body[..|body| - 1])
    ensures ReadsBody(r, ReadLine(before, BodyLineText(body[|body| - 1])), body)
  {
    var here, n := HunkRef(r.path, r.hunk), |body| - 1;
    ReadBodyLine(before, body[n]);
    JoinAssociates(FoundIn(r), FoundInBody(body[..n], r.newLine, here), FoundLine(body[n], before.newLine, here));
  }

  lemma {:induction false} ReadBody(r: Reader, body: seq<BodyLine>)
    requires InHunk(r)
    ensures ReadsBody(r, ReadFrom(r, BodyText(body)), body)
  {
    if body == [] {
      JoinAssociates(FoundIn(r), NOTHING, NOTHING);
    } else {
      var n := |body| - 1;
      ReadBody(r, body[..n]);
      assert BodyText(body)[..n] == BodyText(body[..n]);
      ReadOneMore(r, ReadFrom(r, BodyText(body[..n])), body);
    }
  }

  lemma {:induction false} ReadOne(r: Reader, line: DiffLine)
    ensures ReadFrom(r, [line]) == ReadLine(r, line)
  {
    assert [line][..0] == [];
  }

  lemma {:induction false} ReadHunk(r: Reader, h: HunkDiff)
    requires r.path != "" && r.hunk >= -1
    ensures var after := ReadFrom(r, HunkText(h));
            && after.path == r.path && after.hunk == r.hunk + 1
            && FoundIn(after) == Join(FoundIn(r), FoundInBody(h.body, h.newStart, HunkRef(r.path, r.hunk + 1)))
  {
    var inside := r.(newLine := h.newStart, hunk := r.hunk + 1);
    ReadHunkStart(r, h);
    ReadBody(inside, h.body);
    assert FoundIn(inside) == FoundIn(r);
  }

  lemma {:induction false} ReadHunkStart(r: Reader, h: HunkDiff)
    ensures ReadFrom(r, HunkText(h)) == ReadFrom(r.(newLine := h.newStart, hunk := r.hunk + 1), BodyText(h.body))
  {
    var header := HunkStart(h.oldStart, h.newStart);
    ReadConcat(r, [header], BodyText(h.body));
    ReadOne(r, header);
  }

  lemma {:induction false} ReadHunks(r: Reader, hunks: seq<HunkDiff>)
    requires r.path != "" && r.hunk == -1
    ensures var after := ReadFrom(r, HunksText(hunks));
            && after.path == r.path && after.hunk == |hunks| - 1
            && FoundIn(after) == Join(FoundIn(r), FoundInHunks(r.path, hunks))
  {
    if hunks == [] {
      JoinAssociates(FoundIn(r), NOTHING, NOTHING);
    } else {
      var n := |hunks| - 1;
      ReadHunks(r, hunks[..n]);
      ReadConcat(r, HunksText(hunks[..n]), HunkText(hunks[n]));
      ReadHunk(ReadFrom(r, HunksText(hunks[..n])), hunks[n]);
      JoinAssociates(FoundIn(r), FoundInHunks(r.path, hunks[..n]),
                     FoundInBody(hunks[n].body, hunks[n].newStart, HunkRef(r.path, n)));
    }
  }

  lemma {:induction false} ReadHeader(r: Reader, path: string)
    ensures ReadFrom(r, [FileStart, Other, Removed(Plain), NewPath(path)]) == r.(path := path, hunk := -1)
  {
    var one, two, three := [FileStart], [FileStart, Other], [FileStart, Other, Removed(Plain)];
    assert [FileStart, Other, Removed(Plain), NewPath(path)][..3] == three && three[..2] == two && two[..1] == one && one[..0] == [];
    assert ReadFrom(r, one) == r.(path := "", hunk := -1);
    assert ReadFrom(r, two) == r.(path := "", hunk := -1);
    assert ReadFrom(r, three) == r.(path := "", hunk := -1);
  }

  /** Reading a diff finds its additions, removals and release headings, each under its own hunk. */
  lemma {:induction false} DiffReadsBack(files: seq<FileDiff>)
    requires forall f :: 0 <= f < |files| ==> files[f].path != ""
    ensures FoundIn(ReadFrom(START, DiffText(files))) == FoundInFiles(files)
  {
    if files != [] {
      var n := |files| - 1;
      var f, before := files[n], ReadFrom(START, DiffText(files[..n]));
      var header := [FileStart, Other, Removed(Plain), NewPath(f.path)];
      DiffReadsBack(files[..n]);
      ReadConcat(START, DiffText(files[..n]), FileText(f));
      ReadConcat(before, header, HunksText(f.hunks));
      ReadHeader(before, f.path);
      ReadHunks(before.(path := f.path, hunk := -1), f.hunks);
    }
  }

  // ----- Where the additions are

  /** The hunk shows lines of the new file from `newStart` on. */
  ghost predicate Shows(h: HunkDiff, file: seq<Content>) {
    NewSide(h.body) != [] ==>
      && 1 <= h.newStart && h.newStart - 1 + |NewSide(h.body)| <= |file|
      && forall i :: 0 <= i < |NewSide(h.body)| ==> file[h.newStart - 1 + i] == NewSide(h.body)[i]
  }

  ghost predicate AllShow(hunks: seq<HunkDiff>, file: seq<Content>) {
    forall h :: 0 <= h < |hunks| ==> Shows(hunks[h], file)
  }

  /** The hunks of a file do not overlap. */
  ghost predicate Apart(hunks: seq<HunkDiff>) {
    forall i, j :: 0 <= i < j < |hunks| && NewSide(hunks[i].body) != [] && NewSide(hunks[j].body) != [] ==>
      hunks[i].newStart + |NewSide(hunks[i].body)| <= hunks[j].newStart
  }

  ghost predicate WellFormed(files: seq<FileDiff>, news: map<string, seq<Content>>) {
    && (forall f :: 0 <= f < |files| ==> files[f].path != "" && files[f].path in news && Apart(files[f].hunks))
    && (forall f :: 0 <= f < |files| ==> AllShow(files[f].hunks, news[files[f].path]))
    && (forall f, g :: 0 <= f < g < |files| ==> files[f].path != files[g].path)
  }

  /** These additions come from this body, in rising order. */
  ghost predicate FromBody(adds: seq<Addition>, body: seq<BodyLine>, start: nat, here: HunkRef) {
    && (forall i :: 0 <= i < |adds| ==>
          && adds[i].hunk == here && start <= adds[i].line < start + |NewSide(body)|
          && NewSide(body)[adds[i].line - start] == Bullet(adds[i].key))
    && (forall i, j :: 0 <= i < j < |adds| ==> adds[i].line < adds[j].line)
  }

  lemma {:induction false} BodyAdditions(body: seq<BodyLine>, start: nat, here: HunkRef)
    ensures FromBody(FoundInBody(body, start, here).additions, body, start, here)
  {
    if body != [] {
      BodyAdditions(body[..|body| - 1], start, here);
    }
  }

  /** An addition lies on a bullet of the new file. */
  ghost predicate OnBullet(a: Addition, file: seq<Content>) {
    1 <= a.line <= |file| && file[a.line - 1] == Bullet(a.key)
  }

  lemma {:induction false} BodyOnBullets(h: HunkDiff, here: HunkRef, file: seq<Content>)
    requires Shows(h, file)
    ensures forall a :: a in FoundInBody(h.body, h.newStart, here).additions ==> OnBullet(a, file) && a.hunk == here
  {
    var adds := FoundInBody(h.body, h.newStart, here).additions;
    BodyAdditions(h.body, h.newStart, here);
    forall i | 0 <= i < |adds| ensures OnBullet(adds[i], file) {
      assert file[h.newStart - 1 + (adds[i].line - h.newStart)] == NewSide(h.body)[adds[i].line - h.newStart];
    }
  }

  /** Additions of one file: each on a bullet, and their lines rise. */
  ghost predicate FromFile(adds: seq<Addition>, path: string, file: seq<Content>) {
    && (forall i :: 0 <= i < |adds| ==> adds[i].hunk.path == path && OnBullet(adds[i], file))
    && (forall i, j :: 0 <= i < j < |adds| ==> adds[i].line < adds[j].line)
  }

  /** All lines are before those of a later hunk. */
  ghost predicate Before(adds: seq<Addition>, h: HunkDiff) {
    NewSide(h.body) != [] ==> forall i :: 0 <= i < |adds| ==> adds[i].line < h.newStart
  }

  lemma {:induction false} NextHunk(path: string, hunks: seq<HunkDiff>, n: nat)
    requires n < |hunks|
    ensures FoundInHunks(path, hunks[..n + 1]).additions
            == FoundInHunks(path, hunks[..n]).additions + FoundInBody(hunks[n].body, hunks[n].newStart, HunkRef(path, n)).additions
  {
    assert hunks[..n + 1][..n] == hunks[..n];
  }

  lemma {:induction false} BodyBefore(earlier: HunkDiff, here: HunkRef, later: HunkDiff)
    requires NewSide(earlier.body) != [] && NewSide(later.body) != [] ==>
               earlier.newStart + |NewSide(earlier.body)| <= later.newStart
    ensures Before(FoundInBody(earlier.body, earlier.newStart, here).additions, later)
  {
    BodyAdditions(earlier.body, earlier.newStart, here);
  }

  lemma {:induction false} BeforeBoth(a: seq<Addition>, b: seq<Addition>, h: HunkDiff)
    requires Before(a, h) && Before(b, h)
    ensures Before(a + b, h)
  {
  }

  lemma {:induction false} HunksBefore(path: string, hunks: seq<HunkDiff>, n: nat, k: nat)
    requires n <= k < |hunks| && Apart(hunks)
    ensures Before(FoundInHunks(path, hunks[..n]).additions, hunks[k])
  {
    if n > 0 {
      HunksBefore(path, hunks, n - 1, k);
      NextHunk(path, hunks, n - 1);
      BodyBefore(hunks[n - 1], HunkRef(path, n - 1), hunks[k]);
      BeforeBoth(FoundInHunks(path, hunks[..n - 1]).additions,
                 FoundInBody(hunks[n - 1].body, hunks[n - 1].newStart, HunkRef(path, n - 1)).additions, hunks[k]);
    }
  }

  lemma {:induction false} MoreFromFile(adds: seq<Addition>, h: HunkDiff, here: HunkRef, file: seq<Content>)
    requires FromFile(adds, here.path, file) && Shows(h, file) && Before(adds, h)
    ensures FromFile(adds + FoundInBody(h.body, h.newStart, here).additions, here.path, file)
  {
    BodyOnBullets(h, here, file);
    BodyAdditions(h.body, h.newStart, here);
  }

  lemma {:induction false} HunkAdditions(path: string, hunks: seq<HunkDiff>, n: nat, file: seq<Content>)
    requires n <= |hunks| && Apart(hunks) && AllShow(hunks, file)
    ensures FromFile(FoundInHunks(path, hunks[..n]).additions, path, file)
  {
    if n > 0 {
      HunkAdditions(path, hunks, n - 1, file);
      HunksBefore(path, hunks, n - 1, n - 1);
      NextHunk(path, hunks, n - 1);
      MoreFromFile(FoundInHunks(path, hunks[..n - 1]).additions, hunks[n - 1], HunkRef(path, n - 1), file);
    }
  }

  /** Additions of many files. */
  ghost predicate FromFiles(adds: seq<Addition>, news: map<string, seq<Content>>, paths: set<string>) {
    && (forall i :: 0 <= i < |adds| ==>
          adds[i].hunk.path in paths && adds[i].hunk.path in news && OnBullet(adds[i], news[adds[i].hunk.path]))
    && (forall i, j :: 0 <= i < j < |adds| && adds[i].hunk.path == adds[j].hunk.path ==> adds[i].line < adds[j].line)
  }

  lemma {:induction false} MoreFromFiles(adds: seq<Addition>, news: map<string, seq<Content>>, paths: set<string>,
                                         more: seq<Addition>, path: string)
    requires FromFiles(adds, news, paths) && path !in paths && path in news && FromFile(more, path, news[path])
    ensures FromFiles(adds + more, news, paths + {path})
  {
  }

  function Paths(files: seq<FileDiff>): set<string> {
    set f | 0 <= f < |files| :: files[f].path
  }

  lemma {:induction false} NextPath(files: seq<FileDiff>, n: nat)
    requires n < |files|
    ensures Paths(files[..n + 1]) == Paths(files[..n]) + {files[n].path}
    ensures (forall f :: 0 <= f < n ==> files[f].path != files[n].path) ==> files[n].path !in Paths(files[..n])
  {
    var upTo := files[..n + 1];
    forall p | p in Paths(files[..n]) + {files[n].path} ensures p in Paths(upTo) {
      if p != files[n].path {
        var f :| 0 <= f < n && files[..n][f].path == p;
        assert upTo[f].path == p;
      } else {
        assert upTo[n].path == p;
      }
    }
  }

  lemma {:induction false} NextFile(files: seq<FileDiff>, n: nat)
    requires n < |files|
    ensures FoundInFiles(files[..n + 1]).additions
            == FoundInFiles(files[..n]).additions + FoundInHunks(files[n].path, files[n].hunks).additions
  {
    assert files[..n + 1][..n] == files[..n];
  }

  lemma {:induction false} AllOfFile(f: FileDiff, file: seq<Content>)
    requires Apart(f.hunks) && AllShow(f.hunks, file)
    ensures FromFile(FoundInHunks(f.path, f.hunks).additions, f.path, file)
  {
    HunkAdditions(f.path, f.hunks, |f.hunks|, file);
    assert f.hunks[..|f.hunks|] == f.hunks;
  }

  lemma {:induction false} FileFacts(files: seq<FileDiff>, n: nat, news: map<string, seq<Content>>)
    requires n < |files| && WellFormed(files, news)
    ensures files[n].path in news && Apart(files[n].hunks) && AllShow(files[n].hunks, news[files[n].path])
    ensures forall f :: 0 <= f < n ==> files[f].path != files[n].path
  {
  }

  lemma {:induction false} FileStep(files: seq<FileDiff>, n: nat, news: map<string, seq<Content>>)
    requires n < |files| && WellFormed(files, news)
    requires FromFiles(FoundInFiles(files[..n]).additions, news, Paths(files[..n]))
    ensures FromFiles(FoundInFiles(files[..n + 1]).additions, news, Paths(files[..n + 1]))
  {
    FileFacts(files, n, news);
    AllOfFile(files[n], news[files[n].path]);
    NextFile(files, n);
    NextPath(files, n);
    MoreFromFiles(FoundInFiles(files[..n]).additions, news, Paths(files[..n]),
                  FoundInHunks(files[n].path, files[n].hunks).additions, files[n].path);
  }

  lemma {:induction false} FileAdditions(files: seq<FileDiff>, n: nat, news: map<string, seq<Content>>)
    requires n <= |files| && WellFormed(files, news)
    ensures FromFiles(FoundInFiles(files[..n]).additions, news, Paths(files[..n]))
  {
    if n > 0 {
      FileAdditions(files, n - 1, news);
      FileStep(files, n - 1, news);
    }
  }

  /** What the reader finds in a well-formed diff: every addition is numbered as in the new file. */
  lemma {:induction false} AdditionsIndexTheNewFile(files: seq<FileDiff>, news: map<string, seq<Content>>)
    requires WellFormed(files, news)
    ensures FromFiles(ReadFrom(START, DiffText(files)).additions, news, Paths(files))
  {
    DiffReadsBack(files);
    FileAdditions(files, |files|, news);
    assert files[..|files|] == files;
  }

  // ----- The collected numbers

  /** New additions of a file among the first `n`. */
  function CountNewIn(adds: seq<Addition>, rems: seq<Removal>, headings: set<HunkRef>, path: string, n: nat): nat
    requires n <= |adds|
  {
    if n == 0 then 0
    else CountNewIn(adds, rems, headings, path, n - 1) + if adds[n - 1].hunk.path == path && IsNew(adds, rems, headings, n - 1) then 1 else 0
  }

  lemma {:induction false} NotAmong(adds: seq<Addition>, rems: seq<Removal>, headings: set<HunkRef>, path: string, n: nat, x: nat)
    requires n <= |adds| && forall i :: 0 <= i < n && adds[i].hunk.path == path ==> adds[i].line != x
    ensures x !in NewLines(adds, rems, headings, path, n)
  {
    NewLinesMeaning(adds, rems, headings, path, n, x);
  }

  lemma {:induction false} NewLinesAreCounted(adds: seq<Addition>, rems: seq<Removal>, headings: set<HunkRef>, path: string, n: nat,
                                              news: map<string, seq<Content>>, paths: set<string>)
    requires n <= |adds| && FromFiles(adds, news, paths)
    ensures |NewLines(adds, rems, headings, path, n)| == CountNewIn(adds, rems, headings, path, n)
  {
    if n > 0 {
      NewLinesAreCounted(adds, rems, headings, path, n - 1, news, paths);
      if adds[n - 1].hunk.path == path {
        NotAmong(adds, rems, headings, path, n - 1, adds[n - 1].line);
      }
    }
  }

  /** Every number collected for this file is the line of a bullet in the new file, and no two new
      bullets share a number, so none is lost in the set. */
  ghost predicate NumbersAreExact(r: Reader, path: string, news: map<string, seq<Content>>) {
    var numbers := NewLines(r.additions, r.removals, r.headings, path, |r.additions|);
    && (forall x :: x in numbers ==> path in news && 1 <= x <= |news[path]| && news[path][x - 1].Bullet?)
    && |numbers| == CountNewIn(r.additions, r.removals, r.headings, path, |r.additions|)
  }

  lemma {:induction false} NewLineOnBullet(adds: seq<Addition>, rems: seq<Removal>, headings: set<HunkRef>, path: string, n: nat,
                                           news: map<string, seq<Content>>, paths: set<string>, x: nat)
    requires n <= |adds| && FromFiles(adds, news, paths) && x in NewLines(adds, rems, headings, path, n)
    ensures path in news && 1 <= x <= |news[path]| && news[path][x - 1].Bullet?
  {
    var i := NewLineFrom(adds, rems, headings, path, n, x);
  }

  lemma {:induction false} NumbersOfReader(r: Reader, path: string, news: map<string, seq<Content>>, paths: set<string>)
    requires FromFiles(r.additions, news, paths)
    ensures NumbersAreExact(r, path, news)
  {
    forall x | x in NewLines(r.additions, r.removals, r.headings, path, |r.additions|)
      ensures path in news && 1 <= x <= |news[path]| && news[path][x - 1].Bullet?
    {
      NewLineOnBullet(r.additions, r.removals, r.headings, path, |r.additions|, news, paths, x);
    }
    NewLinesAreCounted(r.additions, r.removals, r.headings, path, |r.additions|, news, paths);
  }

  /** On a well-formed diff the collected numbers are exact for every file. */
  lemma {:induction false} CollectedNumbersAreExact(files: seq<FileDiff>, news: map<string, seq<Content>>, path: string)
    requires WellFormed(files, news)
    ensures NumbersAreExact(ReadFrom(START, DiffText(files)), path, news)
  {
    AdditionsIndexTheNewFile(files, news);
    NumbersOfReader(ReadFrom(START, DiffText(files)), path, news, Paths(files));
  }
}
