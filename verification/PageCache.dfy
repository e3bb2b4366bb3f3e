/** The two layers of file.c and mmap.c: `read` and `write` go to the lower file, mapped memory to
    private copies of its pages. `Cache` is the state of one file; the class below carries the
    operations out in place. Loads and stores reach a page by way of a fault. */
module PageCache {
  type byte = bv8

  const PAGE_SIZE: nat := 4096

  /** An upper page. */
  datatype Page = Page(data: seq<byte>, uptodate: bool, dirty: bool)

  /** Bytes that were never written are zero. */
  type Bytes = map<nat, byte>

  function At(m: Bytes, p: nat): byte { if p in m then m[p] else 0 }

  datatype Cache = Cache(lower: Bytes, lowerSize: nat, pages: map<nat, Page>, size: nat)

  ghost predicate Valid(c: Cache) {
    forall i | i in c.pages :: |c.pages[i].data| == PAGE_SIZE
  }

  // ---------------------------------------------------------------- operations

  function Overwrite(lower: Bytes, at: nat, data: seq<byte>): (r: Bytes)
    ensures forall p: nat :: At(r, p) == if at <= p < at + |data| then data[p - at] else At(lower, p)
    decreases |data|
  {
    if data == [] then lower else Overwrite(lower[at := data[0]], at + 1, data[1..])
  }

  function LowerPage(lower: Bytes, i: nat): (s: seq<byte>)
    ensures |s| == PAGE_SIZE && forall k | 0 <= k < PAGE_SIZE :: s[k] == At(lower, i * PAGE_SIZE + k)
  {
    seq(PAGE_SIZE, k requires 0 <= k => At(lower, i * PAGE_SIZE + k))
  }

  /** The pages from `first` to `last` lose their Uptodate flag. */
  function Outdated(pages: map<nat, Page>, first: nat, last: nat): map<nat, Page> {
    map i | i in pages :: if first <= i <= last then pages[i].(uptodate := false) else pages[i]
  }

  function MarkOutdated(pages: map<nat, Page>, count: nat, pos: nat): map<nat, Page> {
    if count == 0 then pages else Outdated(pages, pos / PAGE_SIZE, (pos + count) / PAGE_SIZE)
  }

  /** A write of which the lower file took `data` at `at`. */
  function WriteAt(c: Cache, at: nat, data: seq<byte>): Cache {
    var size := if data != [] && at + |data| > c.lowerSize then at + |data| else c.lowerSize;
    Cache(Overwrite(c.lower, at, data), size, MarkOutdated(c.pages, |data|, at), size)
  }

  function ReadAt(c: Cache, pos: nat, count: nat): (s: seq<byte>)
    ensures forall k | 0 <= k < |s| :: s[k] == At(c.lower, pos + k)
  {
    var n := if pos >= c.lowerSize then 0 else if count <= c.lowerSize - pos then count else c.lowerSize - pos;
    seq(n, k requires 0 <= k => At(c.lower, pos + k))
  }

  /** A page of the upper file is filled; `ok` is whether the lower page could be had. */
  function ReadPage(c: Cache, i: nat, ok: bool): Cache
    requires i in c.pages
  {
    c.(pages := c.pages[i := if ok then c.pages[i].(data := LowerPage(c.lower, i), uptodate := true)
                             else c.pages[i].(uptodate := false)])
  }

  /** Writing a page back. The dirty flag was cleared by the caller, whatever comes of it. */
  function WritePage(c: Cache, i: nat, ok: bool): Cache
    requires i in c.pages
  {
    if ok then
      c.(lower := Overwrite(c.lower, i * PAGE_SIZE, c.pages[i].data),
         pages := c.pages[i := c.pages[i].(uptodate := true, dirty := false)])
    else
      c.(pages := c.pages[i := c.pages[i].(dirty := false)])
  }

  /** A store through a mapping, the page having been faulted in. */
  function Store(c: Cache, p: nat, b: byte): Cache
    requires p / PAGE_SIZE in c.pages && |c.pages[p / PAGE_SIZE].data| == PAGE_SIZE
  {
    var i := p / PAGE_SIZE;
    c.(pages := c.pages[i := c.pages[i].(data := c.pages[i].data[p % PAGE_SIZE := b], dirty := true)])
  }

  // ---------------------------------------------------------------- steps and runs

  datatype Step =
    | Write(at: nat, data: seq<byte>)
    | NewPage(i: nat, junk: seq<byte>)   // a page enters the cache, not yet filled
    | FillPage(i: nat, ok: bool)
    | WriteBack(i: nat, ok: bool)
    | StoreByte(p: nat, b: byte)
    | DropPage(i: nat)

  predicate Enabled(c: Cache, st: Step) {
    match st
    case Write(at, data) => true
    case NewPage(i, junk) => i !in c.pages && |junk| == PAGE_SIZE
    case FillPage(i, ok) => i in c.pages && !c.pages[i].uptodate
    case WriteBack(i, ok) => i in c.pages && c.pages[i].dirty
    case StoreByte(p, b) => p / PAGE_SIZE in c.pages && c.pages[p / PAGE_SIZE].uptodate
    case DropPage(i) => i in c.pages && !c.pages[i].dirty
  }

  function Next(c: Cache, st: Step): Cache
    requires Valid(c) && Enabled(c, st)
  {
    match st
    case Write(at, data) => WriteAt(c, at, data)
    case NewPage(i, junk) => c.(pages := c.pages[i := Page(junk, false, false)])
    case FillPage(i, ok) => ReadPage(c, i, ok)
    case WriteBack(i, ok) => WritePage(c, i, ok)
    case StoreByte(p, b) => Store(c, p, b)
    case DropPage(i) => c.(pages := c.pages - {i})
  }

  // ---------------------------------------------------------------- what single steps do

  /** Page `i` may change, and nothing else but the lower bytes. */
  ghost predicate OnlyPage(c: Cache, c1: Cache, i: nat) {
    && c1.pages.Keys == c.pages.Keys && c1.lowerSize == c.lowerSize && c1.size == c.size
    && forall j | j in c.pages && j != i :: c1.pages[j] == c.pages[j]
  }

  /** Filling a page succeeds exactly if the lower page could be had. Then the page holds its bytes, and
      every byte of it can be stored to. */
  lemma FillExactly(c: Cache, i: nat, ok: bool)
    requires Valid(c) && Enabled(c, FillPage(i, ok))
    ensures var c1 := Next(c, FillPage(i, ok));
      && Valid(c1) && OnlyPage(c, c1, i) && c1.lower == c.lower && i in c1.pages
      && (c1.pages[i].uptodate <==> ok) && c1.pages[i].dirty == c.pages[i].dirty
      && (if ok then forall k | 0 <= k < PAGE_SIZE :: c1.pages[i].data[k] == At(c.lower, i * PAGE_SIZE + k)
          else c1.pages[i].data == c.pages[i].data)
      && (ok ==> forall p: nat, b: byte | p / PAGE_SIZE == i :: Enabled(c1, StoreByte(p, b)))
  {
  }

  /** Writing a page back brings exactly its bytes to the lower file and leaves it up to date, or changes
      nothing; it is clean either way. */
  lemma WriteBackExactly(c: Cache, i: nat, ok: bool)
    requires Valid(c) && Enabled(c, WriteBack(i, ok))
    ensures var c1 := Next(c, WriteBack(i, ok));
      && Valid(c1) && OnlyPage(c, c1, i) && i in c1.pages
      && c1.pages[i].data == c.pages[i].data && !c1.pages[i].dirty
      && c1.pages[i].uptodate == (ok || c.pages[i].uptodate)
      && forall p: nat :: At(c1.lower, p) == if ok && p / PAGE_SIZE == i then c.pages[i].data[p % PAGE_SIZE] else At(c.lower, p)
  {
    if ok {
      forall p: nat
        ensures At(WritePage(c, i, ok).lower, p) == if p / PAGE_SIZE == i then c.pages[i].data[p % PAGE_SIZE] else At(c.lower, p)
      {
        InPage(p, i);
      }
    }
  }

  lemma InPage(p: nat, i: nat)
    ensures p / PAGE_SIZE == i <==> i * PAGE_SIZE <= p < i * PAGE_SIZE + PAGE_SIZE
    ensures p / PAGE_SIZE == i ==> p - i * PAGE_SIZE == p % PAGE_SIZE
  {
  }

  /** A write that was taken makes the file as long as its last byte asks, in both layers. */
  lemma WriteSizes(c: Cache, at: nat, data: seq<byte>)
    requires Valid(c)
    ensures var c1 := Next(c, Write(at, data));
      && c1.size == c1.lowerSize >= c.lowerSize
      && (c1.lowerSize > c.lowerSize <==> data != [] && at + |data| > c.lowerSize)
      && (c1.lowerSize > c.lowerSize ==> c1.lowerSize == at + |data|)
  {
  }

  // ---------------------------------------------------------------- coherence

  /** Every page that is up to date and clean is the lower page. */
  ghost predicate Coherent(c: Cache) {
    forall i | i in c.pages && c.pages[i].uptodate && !c.pages[i].dirty :: c.pages[i].data == LowerPage(c.lower, i)
  }

  /** Only a write-back that failed can break coherence, and does so exactly when the page was up to
      date and not yet the lower page. */
  ghost predicate LosesPage(c: Cache, st: Step) {
    && st.WriteBack? && !st.ok && st.i in c.pages
    && c.pages[st.i].uptodate && c.pages[st.i].data != LowerPage(c.lower, st.i)
  }

  /** The pages marked are those the written bytes lie in, and the next one when the last byte
      ends a page. */
  lemma MarkedPagesAreTouched(at: nat, count: nat, i: nat)
    requires count > 0
    ensures at / PAGE_SIZE <= i <= (at + count) / PAGE_SIZE
       <==> (exists p :: at <= p < at + count && p / PAGE_SIZE == i) || i * PAGE_SIZE == at + count
  {
    if at / PAGE_SIZE <= i <= (at + count) / PAGE_SIZE && i * PAGE_SIZE != at + count {
      var p := if i == at / PAGE_SIZE then at else i * PAGE_SIZE;
      assert at <= p < at + count && p / PAGE_SIZE == i;
    }
  }

  lemma StepKeepsCoherence(c: Cache, st: Step)
    requires Valid(c) && Coherent(c) && Enabled(c, st)
    ensures Valid(Next(c, st))
    ensures Coherent(Next(c, st)) <==> !LosesPage(c, st)
  {
  }

  lemma StepKeepsValid(c: Cache, st: Step)
    requires Valid(c) && Enabled(c, st)
    ensures Valid(Next(c, st))
  {
  }

  /** A run as the list of its steps. */
  ghost predicate Legal(c: Cache, run: seq<Step>)
    requires Valid(c)
    decreases |run|
  {
    if run == [] then true
    else
      Enabled(c, run[0]) && (StepKeepsValid(c, run[0]); Legal(Next(c, run[0]), run[1..]))
  }

  ghost function After(c: Cache, run: seq<Step>): Cache
    requires Valid(c) && Legal(c, run)
    decreases |run|
  {
    if run == [] then c
    else
      StepKeepsValid(c, run[0]);
      After(Next(c, run[0]), run[1..])
  }

  /** Some step of the run loses a page. */
  ghost predicate LosesSome(c: Cache, run: seq<Step>)
    requires Valid(c) && Legal(c, run)
    decreases |run|
  {
    run != [] && (LosesPage(c, run[0]) || (StepKeepsValid(c, run[0]); LosesSome(Next(c, run[0]), run[1..])))
  }

  /** In a run in which no failed write-back loses a page, whatever else happens, the clean pages
      agree with the lower file, and what is mapped there reads as `read` does. */
  lemma {:induction false} RunsKeepCoherence(c: Cache, run: seq<Step>)
    requires Valid(c) && Coherent(c) && Legal(c, run) && !LosesSome(c, run)
    ensures Valid(After(c, run)) && Coherent(After(c, run))
    ensures forall p: nat | p / PAGE_SIZE in After(c, run).pages && p < After(c, run).lowerSize ::
              var page := After(c, run).pages[p / PAGE_SIZE];
              page.uptodate && !page.dirty ==> [page.data[p % PAGE_SIZE]] == ReadAt(After(c, run), p, 1)
    decreases |run|
  {
    if run == [] {
      forall p: nat | p / PAGE_SIZE in c.pages && p < c.lowerSize
        ensures var page := c.pages[p / PAGE_SIZE];
          page.uptodate && !page.dirty ==> [page.data[p % PAGE_SIZE]] == ReadAt(c, p, 1)
      {
        LoadIsRead(c, p);
      }
    } else {
      StepKeepsCoherence(c, run[0]);
      RunsKeepCoherence(Next(c, run[0]), run[1..]);
    }
  }

  lemma LoadIsRead(c: Cache, p: nat)
    requires Valid(c) && Coherent(c) && p / PAGE_SIZE in c.pages && p < c.lowerSize
    ensures var page := c.pages[p / PAGE_SIZE];
      page.uptodate && !page.dirty ==> [page.data[p % PAGE_SIZE]] == ReadAt(c, p, 1)
  {
  }

  // ---------------------------------------------------------------- one memory

  /** The file as one memory: stores that are not written back yet lie over the lower file. */
  ghost function View(c: Cache, p: nat): byte
    requires Valid(c)
  {
    var i := p / PAGE_SIZE;
    if i in c.pages && c.pages[i].dirty then c.pages[i].data[p % PAGE_SIZE] else At(c.lower, p)
  }

  /** What a step means for one memory: writes and stores change the bytes they name, and nothing
      else changes any. */
  ghost function Meaning(st: Step, p: nat, was: byte): byte {
    match st
    case Write(at, data) => if at <= p < at + |data| then data[p - at] else was
    case StoreByte(q, b) => if p == q then b else was
    case _ => was
  }

  /** A dirty page is never waiting to be filled. */
  ghost predicate DirtyIsUptodate(c: Cache) {
    forall i | i in c.pages && c.pages[i].dirty :: c.pages[i].uptodate
  }

  /** Where the two layers can be told from one memory: a write that falls into a page with stores
      not written back and differs from it, or a failed write-back of changes. */
  ghost predicate ShowsLayers(c: Cache, st: Step)
    requires Valid(c)
  {
    match st
    case Write(at, data) =>
      exists p: nat :: at <= p < at + |data| && p / PAGE_SIZE in c.pages && c.pages[p / PAGE_SIZE].dirty
                       && c.pages[p / PAGE_SIZE].data[p % PAGE_SIZE] != data[p - at]
    case WriteBack(i, ok) => !ok && i in c.pages && c.pages[i].data != LowerPage(c.lower, i)
    case _ => false
  }

  lemma WriteIsOneMemory(c: Cache, at: nat, data: seq<byte>)
    requires Valid(c)
    ensures var st := Write(at, data);
      (forall p: nat :: View(Next(c, st), p) == Meaning(st, p, View(c, p))) <==> !ShowsLayers(c, st)
  {
    var st := Write(at, data);
    var c1 := Next(c, st);
    forall p: nat
      ensures View(c1, p) == Meaning(st, p, View(c, p)) <==>
        !(at <= p < at + |data| && p / PAGE_SIZE in c.pages && c.pages[p / PAGE_SIZE].dirty
          && c.pages[p / PAGE_SIZE].data[p % PAGE_SIZE] != data[p - at])
    {
    }
  }

  lemma WriteBackIsOneMemory(c: Cache, i: nat, ok: bool)
    requires Valid(c) && i in c.pages && c.pages[i].dirty
    ensures var st := WriteBack(i, ok);
      (forall p: nat :: View(Next(c, st), p) == Meaning(st, p, View(c, p))) <==> !ShowsLayers(c, st)
  {
    var st := WriteBack(i, ok);
    var c1 := Next(c, st);
    var data, lower := c.pages[i].data, LowerPage(c.lower, i);
    forall p: nat
      ensures View(c1, p) == View(c, p) <==> ok || p / PAGE_SIZE != i || data[p % PAGE_SIZE] == lower[p % PAGE_SIZE]
    {
      assert p == p / PAGE_SIZE * PAGE_SIZE + p % PAGE_SIZE;
    }
    if !ok && data != lower {
      var k :| 0 <= k < PAGE_SIZE && data[k] != lower[k];
      var p := i * PAGE_SIZE + k;
      assert p / PAGE_SIZE == i && p % PAGE_SIZE == k;
      assert View(c1, p) != Meaning(st, p, View(c, p));
    }
  }

  lemma StoreIsOneMemory(c: Cache, q: nat, b: byte)
    requires Valid(c) && Coherent(c) && Enabled(c, StoreByte(q, b))
    ensures forall p: nat :: View(Next(c, StoreByte(q, b)), p) == Meaning(StoreByte(q, b), p, View(c, p))
  {
  }

  /** A step does to the one memory what it means, exactly unless it shows the layers. */
  lemma StepIsOneMemory(c: Cache, st: Step)
    requires Valid(c) && Enabled(c, st) && Coherent(c) && DirtyIsUptodate(c)
    ensures Valid(Next(c, st))
    ensures (forall p: nat :: View(Next(c, st), p) == Meaning(st, p, View(c, p))) <==> !ShowsLayers(c, st)
  {
    match st
    case Write(at, data) => WriteIsOneMemory(c, at, data);
    case NewPage(i, junk) =>
    case FillPage(i, ok) =>
    case WriteBack(i, ok) => WriteBackIsOneMemory(c, i, ok);
    case StoreByte(p, b) => StoreIsOneMemory(c, p, b);
    case DropPage(i) =>
  }

  /** A write takes the Uptodate flag of a page with stores not written back. The page behind a
      write that ends at a page boundary counts, although no byte of it is written. */
  ghost predicate Disturbs(c: Cache, st: Step) {
    && st.Write? && st.data != []
    && exists i :: st.at / PAGE_SIZE <= i <= (st.at + |st.data|) / PAGE_SIZE && i in c.pages && c.pages[i].dirty
  }

  lemma OnlyWritesDisturb(c: Cache, st: Step)
    requires Valid(c) && Enabled(c, st) && DirtyIsUptodate(c)
    ensures DirtyIsUptodate(Next(c, st)) <==> !Disturbs(c, st)
  {
    if Disturbs(c, st) {
      var i :| st.at / PAGE_SIZE <= i <= (st.at + |st.data|) / PAGE_SIZE && i in c.pages && c.pages[i].dirty;
      assert i in Next(c, st).pages && !Next(c, st).pages[i].uptodate;
    }
  }

  /** No write of the run meets stores that are not written back, and no write-back of changes fails. */
  ghost predicate Undisturbed(c: Cache, run: seq<Step>)
    requires Valid(c) && Legal(c, run)
    decreases |run|
  {
    run == []
    || (!Disturbs(c, run[0]) && !ShowsLayers(c, run[0]) && (StepKeepsValid(c, run[0]); Undisturbed(Next(c, run[0]), run[1..])))
  }

  /** The byte at `p` after a run, as one memory has it. */
  ghost function Remembered(run: seq<Step>, p: nat, was: byte): byte
    decreases |run|
  {
    if run == [] then was else Remembered(run[1..], p, Meaning(run[0], p, was))
  }

  /** Over such a run, with any interleaving of writes, stores, faults, write-backs and evictions,
      the two layers are one memory, and every page that can be loaded from holds its bytes. */
  lemma {:induction false} RunsAreOneMemory(c: Cache, run: seq<Step>)
    requires Valid(c) && Coherent(c) && DirtyIsUptodate(c) && Legal(c, run) && Undisturbed(c, run)
    ensures Valid(After(c, run))
    ensures forall p: nat :: View(After(c, run), p) == Remembered(run, p, View(c, p))
    ensures forall p: nat | p / PAGE_SIZE in After(c, run).pages && After(c, run).pages[p / PAGE_SIZE].uptodate ::
              After(c, run).pages[p / PAGE_SIZE].data[p % PAGE_SIZE] == Remembered(run, p, View(c, p))
    decreases |run|
  {
    if run == [] {
      forall p: nat | p / PAGE_SIZE in c.pages && c.pages[p / PAGE_SIZE].uptodate
        ensures c.pages[p / PAGE_SIZE].data[p % PAGE_SIZE] == View(c, p)
      {
        var i := p / PAGE_SIZE;
        assert p == i * PAGE_SIZE + p % PAGE_SIZE;
        if !c.pages[i].dirty { assert c.pages[i].data[p % PAGE_SIZE] == LowerPage(c.lower, i)[p % PAGE_SIZE]; }
      }
    } else {
      StepKeepsCoherence(c, run[0]);
      StepIsOneMemory(c, run[0]);
      OnlyWritesDisturb(c, run[0]);
      RunsAreOneMemory(Next(c, run[0]), run[1..]);
    }
  }

  /** What a mapping has stored at `p` and nobody has written back. */
  ghost predicate Unsaved(c: Cache, p: nat)
    requires Valid(c)
  {
    && p / PAGE_SIZE in c.pages && c.pages[p / PAGE_SIZE].dirty
    && c.pages[p / PAGE_SIZE].data[p % PAGE_SIZE] != At(c.lower, p)
  }

  /** Over such a run `read` gives the byte last written or stored at a position exactly when it is
      not an unsaved store. */
  lemma ReadsLagExactly(c: Cache, run: seq<Step>, p: nat)
    requires Valid(c) && Coherent(c) && DirtyIsUptodate(c) && Legal(c, run) && Undisturbed(c, run)
    requires p < After(c, run).lowerSize
    ensures Valid(After(c, run))
    ensures ReadAt(After(c, run), p, 1) == [Remembered(run, p, View(c, p))] <==> !Unsaved(After(c, run), p)
  {
    RunsAreOneMemory(c, run);
    var c1 := After(c, run);
    assert View(c1, p) == Remembered(run, p, View(c, p));
    assert ReadAt(c1, p, 1) == [At(c1.lower, p)];
    hide After, Legal, Undisturbed, Remembered, Coherent, DirtyIsUptodate;
  }

  /** Over every run the upper file is as long as the lower one. */
  lemma {:induction false} SizesAgree(c: Cache, run: seq<Step>)
    requires Valid(c) && Legal(c, run) && c.size == c.lowerSize
    ensures After(c, run).size == After(c, run).lowerSize
    decreases |run|
  {
    if run != [] {
      StepKeepsValid(c, run[0]);
      SizesAgree(Next(c, run[0]), run[1..]);
    }
  }

  // ---------------------------------------------------------------- file.c and mmap.c

  class MappedFile {
    var lower: Bytes
    var lowerSize: nat
    var pages: map<nat, Page>
    var size: nat
    var lowerPos: nat

    function Abs(): Cache
      reads this
    {
      Cache(lower, lowerSize, pages, size)
    }

    constructor (lower: Bytes, lowerSize: nat)
      ensures Abs() == Cache(lower, lowerSize, map[], lowerSize)
    {
      this.lower, this.lowerSize, pages, size, lowerPos := lower, lowerSize, map[], lowerSize, 0;
    }

    /** `mark_pages_outdated`. */
    method MarkPagesOutdated(count: nat, pos: nat)
      modifies this`pages
      ensures pages == MarkOutdated(old(pages), count, pos)
    {
      if count == 0 { return; }
      var first, last := pos / PAGE_SIZE, (pos + count) / PAGE_SIZE;
      var i := first;
      while i <= last
        invariant first <= i <= last + 1
        invariant pages == map j | j in old(pages) ::
                    if first <= j < i then old(pages)[j].(uptodate := false) else old(pages)[j]
      {
        if i in pages { pages := pages[i := pages[i].(uptodate := false)]; }
        i := i + 1;
      }
    }

    /** `dazukofs_write`. The lower file system decides how much it takes and where: `ret` bytes
        ending at `posAfter`, or an error. */
    method Write(buf: seq<byte>, ret: int, posAfter: nat) returns (newPos: nat)
      requires ret <= |buf| && ret <= posAfter
      modifies this
      ensures newPos == posAfter == lowerPos
      ensures size == lowerSize == if ret > 0 && posAfter > old(lowerSize) then posAfter else old(lowerSize)
      ensures Abs() == if ret >= 0 then WriteAt(old(Abs()), posAfter - ret, buf[..ret])
                       else old(Abs()).(size := old(lowerSize))
    {
      if ret >= 0 { LowerWrite(posAfter - ret, buf[..ret]); }
      lowerPos := posAfter;
      if ret >= 0 { MarkPagesOutdated(ret, posAfter - ret); }
      newPos := posAfter;
      size := lowerSize;
    }

    /** What the lower file system does with the bytes it takes. */
    method LowerWrite(at: nat, data: seq<byte>)
      modifies this`lower, this`lowerSize
      ensures lower == Overwrite(old(lower), at, data)
      ensures lowerSize == if data != [] && at + |data| > old(lowerSize) then at + |data| else old(lowerSize)
    {
      var n := 0;
      while n < |data|
        invariant n <= |data| && Overwrite(lower, at + n, data[n..]) == Overwrite(old(lower), at, data)
        invariant lowerSize == if n > 0 && at + n > old(lowerSize) then at + n else old(lowerSize)
      {
        lower := lower[at + n := data[n]];
        n := n + 1;
        if at + n > lowerSize { lowerSize := at + n; }
      }
    }

    /** `dazukofs_read`. The lower file system decides how much it delivers: `ret` bytes from `pos` on,
        none of them behind its end, or an error. */
    method Read(pos: nat, count: nat, ret: int, posAfter: nat) returns (data: seq<byte>, newPos: nat)
      requires ret >= 0 ==> ret <= count && posAfter == pos + ret && (ret > 0 ==> posAfter <= lowerSize)
      modifies this`lowerPos
      ensures |data| == (if ret >= 0 then ret else 0) && forall k | 0 <= k < |data| :: data[k] == At(lower, pos + k)
      ensures data <= ReadAt(Abs(), pos, count)
      ensures newPos == posAfter == lowerPos
    {
      data := if ret >= 0 then ReadAt(Abs(), pos, ret) else [];
      lowerPos := posAfter;
      newPos := posAfter;
    }

    /** `dazukofs_readpage`; the two flags say whether the lower page was read and both pages mapped. */
    method FillPage(i: nat, read: bool, mapped: bool) returns (ok: bool)
      requires i in pages && |pages[i].data| == PAGE_SIZE
      modifies this`pages
      ensures ok == (read && mapped) && Abs() == ReadPage(old(Abs()), i, ok)
      ensures pages.Keys == old(pages).Keys && pages[i].uptodate == ok
      ensures ok ==> |pages[i].data| == PAGE_SIZE && forall k | 0 <= k < PAGE_SIZE :: pages[i].data[k] == At(lower, i * PAGE_SIZE + k)
    {
      ok := read && mapped;
      if ok { pages := pages[i := pages[i].(data := LowerPage(lower, i))]; }
      pages := pages[i := pages[i].(uptodate := ok)];
    }

    /** `dazukofs_writepage`, the dirty flag having been cleared for it. */
    method WriteBack(i: nat, grabbed: bool, mapped: bool) returns (ok: bool)
      requires i in pages && |pages[i].data| == PAGE_SIZE
      modifies this`pages, this`lower
      ensures ok == (grabbed && mapped) && Abs() == WritePage(old(Abs()), i, ok)
      ensures pages.Keys == old(pages).Keys && !pages[i].dirty && pages[i].uptodate == (ok || old(pages)[i].uptodate)
    {
      pages := pages[i := pages[i].(dirty := false)];
      if !grabbed || !mapped { return false; }
      lower := Overwrite(lower, i * PAGE_SIZE, pages[i].data);
      pages := pages[i := pages[i].(uptodate := true)];
      ok := true;
    }
  }
}
