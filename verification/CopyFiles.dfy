/** The job that moves captured files to a file server: copy everything, then delete the sources.
    It may stop at any step and be started again. */
module CopyFiles {
  import opened ByteOrder

  type Files = map<string, seq<byte>>

  datatype Outcome = Completed | Stopped | Raised

  /** A source file and the folder it goes to. */
  datatype Entry = Entry(src: string, folder: string)

  // ---- Paths ----

  function BaseName(path: string): string {
    if path == "" || path[|path| - 1] == '/' then "" else BaseName(path[..|path| - 1]) + [path[|path| - 1]]
  }

  function Join(folder: string, name: string): string {
    if folder == "" || folder[|folder| - 1] == '/' then folder + name else folder + "/" + name
  }

  function Target(e: Entry): string {
    Join(e.folder, BaseName(e.src))
  }

  predicate NoSlash(name: string) {
    forall i :: 0 <= i < |name| ==> name[i] != '/'
  }

  /** name is what follows the last slash of the path, if it has any. */
  ghost predicate IsNameOf(path: string, name: string) {
    NoSlash(name) && (path == name || exists d :: path == d + "/" + name)
  }

  /** path is the entry's file in its folder: the name, after the folder and one slash. */
  ghost predicate LiesAt(e: Entry, path: string) {
    exists name :: IsNameOf(e.src, name) &&
      path == if e.folder == "" then name
              else if e.folder[|e.folder| - 1] == '/' then e.folder + name
              else e.folder + "/" + name
  }

  lemma {:induction false} NameComesBack(path: string, name: string)
    requires IsNameOf(path, name)
    ensures BaseName(path) == name
    decreases |name|
  {
    if name == "" {
      if path != "" {
        var d :| path == d + "/" + name;
        assert path[|path| - 1] == '/';
      }
    } else {
      var n := |name| - 1;
      if path != name {
        var d :| path == d + "/" + name;
        assert path[..|path| - 1] == d + "/" + name[..n];
      }
      assert path[|path| - 1] == name[n] && name[..n] + [name[n]] == name;
      NameComesBack(path[..|path| - 1], name[..n]);
    }
  }

  lemma {:induction false} BaseNameIsName(path: string)
    ensures IsNameOf(path, BaseName(path))
  {
    if path != "" {
      var n := |path| - 1;
      if path[n] == '/' {
        assert path == path[..n] + "/" + "";
      } else {
        BaseNameIsName(path[..n]);
        NameGrows(path[..n], BaseName(path[..n]), path[n]);
        assert path == path[..n] + [path[n]];
      }
    }
  }

  lemma NameGrows(path: string, name: string, c: char)
    requires IsNameOf(path, name) && c != '/'
    ensures IsNameOf(path + [c], name + [c])
  {
    if path != name {
      var d :| path == d + "/" + name;
      assert path + [c] == d + "/" + (name + [c]);
    }
  }

  /** The destination is where the entry's file lies in its folder, and nowhere else. */
  lemma TargetIff(e: Entry, path: string)
    ensures LiesAt(e, path) <==> path == Target(e)
  {
    BaseNameIsName(e.src);
    forall name | IsNameOf(e.src, name) ensures name == BaseName(e.src) {
      NameComesBack(e.src, name);
    }
  }

  // ---- What must not be lost ----

  /** No destination is a source, and different sources go to different destinations. */
  predicate Apart(list: seq<Entry>) {
    TargetsNotSources(list) && Distinct(list)
  }

  predicate TargetsNotSources(list: seq<Entry>) {
    forall i, j :: 0 <= i < |list| && 0 <= j < |list| ==> Target(list[i]) != list[j].src
  }

  predicate Distinct(list: seq<Entry>) {
    forall i, j :: 0 <= i < |list| && 0 <= j < |list| && list[i].src != list[j].src ==>
      Target(list[i]) != Target(list[j])
  }

  predicate Covers(list: seq<Entry>, original: Files) {
    forall i :: 0 <= i < |list| ==> list[i].src in original
  }

  /** Each listed file's original content is at its source, or the source is gone and the content
      is at the destination. */
  predicate Safe(files: Files, list: seq<Entry>, original: Files)
    requires Covers(list, original)
  {
    forall i :: 0 <= i < |list| ==> SafeEntry(files, list[i], original[list[i].src])
  }

  predicate SafeEntry(files: Files, e: Entry, content: seq<byte>) {
    if e.src in files then files[e.src] == content else Arrived(files, e, content)
  }

  predicate Arrived(files: Files, e: Entry, content: seq<byte>) {
    Target(e) in files && files[Target(e)] == content
  }

  predicate HasArrived(files: Files, list: seq<Entry>, original: Files)
    requires Covers(list, original)
  {
    forall i :: 0 <= i < |list| ==> Arrived(files, list[i], original[list[i].src])
  }

  /** The same, said of the paths in the folders. */
  ghost predicate AllLie(files: Files, list: seq<Entry>, original: Files)
    requires Covers(list, original)
  {
    forall i, path :: 0 <= i < |list| && LiesAt(list[i], path) ==>
      path in files && files[path] == original[list[i].src]
  }

  lemma ArrivedLies(files: Files, list: seq<Entry>, original: Files)
    requires Covers(list, original) && HasArrived(files, list, original)
    ensures AllLie(files, list, original)
  {
    forall i, path | 0 <= i < |list| && LiesAt(list[i], path)
      ensures path in files && files[path] == original[list[i].src]
    {
      TargetIff(list[i], path);
      assert Arrived(files, list[i], original[list[i].src]);
    }
  }

  // ---- What a run computes ----

  function Copied(files: Files, e: Entry): Files {
    if e.src in files then files[Target(e) := files[e.src]] else files
  }

  function CopyAll(files: Files, list: seq<Entry>): Files {
    if list == [] then files else Copied(CopyAll(files, list[..|list| - 1]), list[|list| - 1])
  }

  function Sources(list: seq<Entry>): set<string> {
    set i | 0 <= i < |list| :: list[i].src
  }

  function Removed(files: Files, list: seq<Entry>, locked: set<string>): Files {
    files - (Sources(list) - locked)
  }

  /** What is left of the files when a copy was stopped: nothing done yet, the destination removed,
      or written in part or whole. */
  ghost predicate Stage(files: Files, src: string, dest: string, g: Files) {
    || g == files
    || g == files - {dest}
    || (src in files && src != dest && exists n: nat :: n <= |files[src]| && g == files[dest := files[src][..n]])
  }

  ghost predicate Partway(files: Files, e: Entry, g: Files) {
    g == files || (e.src in files && Stage(files, e.src, Target(e), g))
  }

  ghost predicate LeftCopying(files: Files, list: seq<Entry>, i: nat, g: Files)
    requires i < |list|
  {
    Partway(CopyAll(files, list[..i]), list[i], g)
  }

  predicate LeftDeleting(files: Files, list: seq<Entry>, locked: set<string>, k: nat, g: Files)
    requires k <= |list|
  {
    g == Removed(CopyAll(files, list), list[..k], locked)
  }

  /** Everything a run may leave, wherever it stops. */
  ghost predicate Leaves(files: Files, list: seq<Entry>, locked: set<string>, deleteSources: bool, g: Files) {
    || (exists i: nat :: i < |list| && LeftCopying(files, list, i, g))
    || (exists k: nat :: k <= |list| && (k == 0 || deleteSources) && LeftDeleting(files, list, locked, k, g))
  }

  /** The first entry from there on that is its own destination, or the length of the list. */
  function FirstSelf(list: seq<Entry>, from: nat): (i: nat)
    requires from <= |list|
    ensures from <= i <= |list| && (i < |list| ==> Target(list[i]) == list[i].src)
    ensures forall k :: from <= k < i ==> Target(list[k]) != list[k].src
    decreases |list| - from
  {
    if from == |list| || Target(list[from]) == list[from].src then from else FirstSelf(list, from + 1)
  }

  /** What a run with deletion leaves when nothing stops or hinders it. A file that is its own
      destination is removed before it is read, and the run ends there. */
  function Undisturbed(files: Files, list: seq<Entry>): Files {
    var i := FirstSelf(list, 0);
    if i < |list| then CopyAll(files, list[..i]) - {list[i].src} else Removed(CopyAll(files, list), list, {})
  }

  /** The first loop comes to its end, or to the first entry that is its own destination. */
  predicate EndsAtSelf(files: Files, list: seq<Entry>, r: Outcome, g: Files) {
    var i := FirstSelf(list, 0);
    if i < |list| then r == Raised && g == CopyAll(files, list[..i]) - {list[i].src} else r == Completed
  }

  /** At most how many file operations an entry takes, and the first of a list. */
  function Cost(files: Files, e: Entry): nat {
    if e.src in files then 2 + |files[e.src]| else 0
  }

  function Costs(files: Files, list: seq<Entry>): nat {
    if list == [] then 0 else
    var most := list[..|list| - 1];
    Costs(files, most) + Cost(CopyAll(files, most), list[|list| - 1])
  }

  lemma CostsGrow(files: Files, list: seq<Entry>, i: nat, j: nat)
    requires i <= j <= |list|
    ensures Costs(files, list[..i]) <= Costs(files, list[..j])
    decreases j - i
  {
    if i < j {
      assert list[..j][..j - 1] == list[..j - 1];
      CostsGrow(files, list, i, j - 1);
    }
  }

  lemma OneMoreCost(files: Files, list: seq<Entry>, i: nat)
    requires i < |list|
    ensures Costs(files, list[..i + 1]) == Costs(files, list[..i]) + Cost(CopyAll(files, list[..i]), list[i])
    ensures CopyAll(files, list[..i + 1]) == Copied(CopyAll(files, list[..i]), list[i])
  {
    assert list[..i + 1][..i] == list[..i];
  }

  lemma AtEntry(files: Files, list: seq<Entry>, i: nat)
    requires i < |list|
    ensures Costs(files, list[..i + 1]) == Costs(files, list[..i]) + Cost(CopyAll(files, list[..i]), list[i])
    ensures Costs(files, list[..i + 1]) <= Costs(files, list)
    ensures CopyAll(files, list[..i + 1]) == Copied(CopyAll(files, list[..i]), list[i])
    ensures list[i].src in files ==> list[i].src in CopyAll(files, list[..i])
  {
    OneMoreCost(files, list, i);
    CostsGrow(files, list, i + 1, |list|);
    SourcesStay(files, list, i);
    assert list[..|list|] == list;
  }

  /** An entry that nothing hinders is copied, unless it is its own destination. */
  predicate Unstopped(files: Files, e: Entry, r: Outcome, g: Files) {
    if Target(e) == e.src then r == Raised && g == files - {e.src} else r == Completed
  }

  lemma NotCompletedAt(files: Files, list: seq<Entry>, i: nat, r: Outcome, g: Files)
    requires i < |list| && i <= FirstSelf(list, 0) && r != Completed
    requires Unstopped(CopyAll(files, list[..i]), list[i], r, g)
    ensures EndsAtSelf(files, list, r, g)
  {
  }

  lemma CompletedAt(files: Files, list: seq<Entry>, i: nat, g: Files)
    requires i < |list| && i <= FirstSelf(list, 0) && Unstopped(files, list[i], Completed, g)
    ensures i + 1 <= FirstSelf(list, 0)
  {
  }

  /** An entry that cannot be copied: it is its own destination, or it has neither source nor copy. */
  predicate IsStuck(files: Files, e: Entry) {
    Target(e) == e.src || (e.src !in files && Target(e) !in files)
  }

  lemma NotStuck(files: Files, list: seq<Entry>, original: Files, i: nat)
    requires i < |list|
    ensures Apart(list) && Covers(list, original) && Safe(files, list, original) ==>
      !IsStuck(CopyAll(files, list[..i]), list[i])
  {
    if Apart(list) && Covers(list, original) && Safe(files, list, original) {
      CopyAllSafe(files, list, original, i);
      assert SafeEntry(CopyAll(files, list[..i]), list[i], original[list[i].src]);
    }
  }

  /** The job on one machine: its files, how many more file operations it gets to perform before
      it is stopped, the folders that can be made and the files that cannot be removed. */
  class CopyJob {
    var files: Files
    var budget: nat
    const makeable: set<string>
    const locked: set<string>

    constructor (files: Files, makeable: set<string>, locked: set<string>)
      ensures this.files == files && this.makeable == makeable && this.locked == locked
    {
      this.files, budget := files, 0;
      this.makeable, this.locked := makeable, locked;
    }

    /** One more file operation, unless the job is stopped here. */
    method Alive() returns (alive: bool)
      modifies this`budget
      ensures alive <==> old(budget) > 0
      ensures budget == if alive then old(budget) - 1 else 0
    {
      alive := budget > 0;
      if alive {
        budget := budget - 1;
      }
    }

    method SafeCopyFile(src: string, dest: string, blockSize: nat) returns (r: Outcome)
      requires blockSize > 0
      modifies this`files, this`budget
      ensures Stage(old(files), src, dest, files)
      ensures r == Completed ==> src != dest && src in old(files) && files == old(files)[dest := old(files)[src]]
      ensures old(budget) == 1 && dest !in locked ==> r != Completed && files == old(files) - {dest}
      ensures old(budget) > 0 && dest !in locked && src == dest ==> r == Raised && files == old(files) - {dest}
      ensures old(budget) == 0 ==> r == Stopped
      ensures old(budget) > 0 && dest in locked && dest in old(files) ==> r == Raised && files == old(files)
      ensures dest !in locked && src != dest && src in old(files) ==> r != Raised
      ensures var cost := 2 + if src in old(files) then |old(files)[src]| else 0;
        budget + cost >= old(budget) && (r == Stopped ==> old(budget) < cost)
    {
      var alive := Alive();
      if !alive {
        return Stopped;
      }
      if dest in files {
        if dest in locked {
          return Raised;
        }
        files := files - {dest};
      }
      if src !in files {
        return Raised;
      }
      alive := Alive();
      if !alive {
        return Stopped;
      }
      files := files[dest := []];
      r := CopyBlocks(src, dest, blockSize);
      assert old(files) - {dest} != old(files) ==> dest in old(files);
    }

    /** The loop over the blocks of the source. */
    method CopyBlocks(src: string, dest: string, blockSize: nat) returns (r: Outcome)
      requires blockSize > 0 && src != dest && src in files && dest in files && files[dest] == []
      modifies this`files, this`budget
      ensures r != Raised
      ensures exists n: nat :: n <= |old(files)[src]| && files == old(files)[dest := old(files)[src][..n]]
      ensures r == Completed ==> files == old(files)[dest := old(files)[src]]
      ensures budget + |old(files)[src]| >= old(budget) && (r == Stopped ==> old(budget) < |old(files)[src]|)
    {
      ghost var content := old(files)[src];
      var position := 0;
      var block := ReadBlock(files[src], position, blockSize);
      while block != []
        invariant 0 <= position <= |content|
        invariant block == ReadBlock(content, position, blockSize)
        invariant files == old(files)[dest := content[..position]]
        invariant budget + position >= old(budget)
        decreases |content| - position
      {
        var alive := Alive();
        if !alive {
          return Stopped;
        }
        assert content[..position] + block == content[..position + |block|];
        files := files[dest := files[dest] + block];
        position := position + |block|;
        block := ReadBlock(files[src], position, blockSize);
      }
      assert content[..position] == content;
      return Completed;
    }

    /** The entry's folder can be made, its source is there, and its destination can be removed. */
    predicate Begins(e: Entry, files: Files) {
      e.folder in makeable && e.src in files && Target(e) !in locked
    }

    /** Copies one entry, unless it was moved before. */
    method CopyEntry(e: Entry, blockSize: nat) returns (r: Outcome)
      requires blockSize > 0
      modifies this`files, this`budget
      ensures Partway(old(files), e, files)
      ensures r == Completed ==> files == Copied(old(files), e) && (e.src in old(files) || Target(e) in old(files))
      ensures e.folder !in makeable ==> r == Raised && files == old(files)
      ensures e.folder in makeable && e.src !in old(files) ==>
        r == (if Target(e) in old(files) then Completed else Raised) && files == old(files)
      ensures Begins(e, old(files)) && r != Stopped ==> Unstopped(old(files), e, r, files)
      ensures e.folder in makeable && Target(e) !in locked && r == Raised ==> IsStuck(old(files), e)
      ensures Begins(e, old(files)) && old(budget) == 1 ==> r != Completed && files == old(files) - {Target(e)}
      ensures Begins(e, old(files)) && old(budget) > 0 && Target(e) == e.src ==> r == Raised
      ensures budget + Cost(old(files), e) >= old(budget) && (r == Stopped ==> old(budget) < Cost(old(files), e))
    {
      if e.folder !in makeable {
        return Raised;
      }
      var target := Target(e);
      if target in files && e.src !in files {
        return Completed;
      }
      if e.src !in files {
        return Raised;
      }
      var size := |files[e.src]|;
      r := SafeCopyFile(e.src, target, blockSize);
      if r == Completed && (target !in files || |files[target]| != size) {
        r := Raised;
      }
    }

    method DeleteSources(list: seq<Entry>) returns (r: Outcome, ghost k: nat)
      modifies this`files, this`budget
      ensures r != Raised && k <= |list| && files == Removed(old(files), list[..k], locked)
      ensures r == Completed ==> SourcesGone(old(files), list, files)
      ensures r == Completed ==> k == |list|
      ensures r == Stopped ==> old(budget) < |list|
    {
      var i := 0;
      while i < |list|
        invariant 0 <= i <= |list|
        invariant files == Removed(old(files), list[..i], locked)
        invariant budget == old(budget) - i
      {
        var alive := Alive();
        if !alive {
          return Stopped, i;
        }
        assert Sources(list[..i + 1]) == Sources(list[..i]) + {list[i].src} by { SourcesGrow(list, i); }
        if list[i].src in files && list[i].src !in locked {
          files := files - {list[i].src};
        }
        i := i + 1;
      }
      assert list[..i] == list;
      return Completed, i;
    }

    /** Of the files, exactly the sources that can be removed are gone. */
    predicate SourcesGone(before: Files, list: seq<Entry>, after: Files) {
      && (forall path :: path in before ==>
            (path !in after <==> path !in locked && exists i :: 0 <= i < |list| && list[i].src == path))
      && forall path :: path in after ==> path in before && after[path] == before[path]
    }

    /** Every folder can be made, and every destination can be removed. */
    predicate CanGo(list: seq<Entry>) {
      forall i :: 0 <= i < |list| ==> list[i].folder in makeable && Target(list[i]) !in locked
    }

    /** Every source is there, every folder can be made and every file removed. */
    predicate Freely(files: Files, list: seq<Entry>) {
      locked == {} && forall i :: 0 <= i < |list| ==> list[i].src in files && list[i].folder in makeable
    }

    /** The first loop. */
    method CopyEntries(list: seq<Entry>, blockSize: nat) returns (r: Outcome, ghost i: nat)
      requires blockSize > 0
      modifies this`files, this`budget
      ensures r == Completed ==> files == CopyAll(old(files), list)
      ensures r != Completed ==> i < |list| && LeftCopying(old(files), list, i, files)
      ensures budget + Costs(old(files), list) >= old(budget)
      ensures r == Stopped ==> old(budget) < Costs(old(files), list)
      ensures Freely(old(files), list) && r != Stopped ==> EndsAtSelf(old(files), list, r, files)
      ensures CanGo(list) && r == Raised ==> IsStuck(CopyAll(old(files), list[..i]), list[i])
    {
      var j := 0;
      while j < |list|
        invariant 0 <= j <= |list|
        invariant files == CopyAll(old(files), list[..j])
        invariant budget + Costs(old(files), list[..j]) >= old(budget)
        invariant Freely(old(files), list) ==> j <= FirstSelf(list, 0)
      {
        ghost var before := files;
        AtEntry(old(files), list, j);
        r := CopyEntry(list[j], blockSize);
        if r != Completed {
          assert LeftCopying(old(files), list, j, files);
          if Freely(old(files), list) && r != Stopped {
            NotCompletedAt(old(files), list, j, r, files);
          }
          return r, j;
        }
        if Freely(old(files), list) {
          CompletedAt(before, list, j, files);
        }
        j := j + 1;
      }
      assert list[..j] == list;
      return Completed, j;
    }

    /** The job. It needs nothing of the list: what it may leave, and what it leaves when it
        completes or is let run to its end. If the list is apart, then wherever it is stopped, or
        raises, nothing listed is lost, and when it completes every destination holds the
        original. */
    method Run(list: seq<Entry>, deleteSources: bool, blockSize: nat, ghost original: Files) returns (r: Outcome)
      requires blockSize > 0
      modifies this`files, this`budget
      ensures Leaves(old(files), list, locked, deleteSources, files)
      ensures r == Completed ==>
        files == if deleteSources then Removed(CopyAll(old(files), list), list, locked) else CopyAll(old(files), list)
      ensures r == Stopped ==> old(budget) < Costs(old(files), list) + |list|
      ensures Freely(old(files), list) && deleteSources && r != Stopped ==> files == Undisturbed(old(files), list)
      ensures Apart(list) && Covers(list, original) && Safe(old(files), list, original) ==>
        && Safe(files, list, original)
        && (r == Completed ==> HasArrived(files, list, original) && AllLie(files, list, original))
      ensures Apart(list) && Covers(list, original) && Safe(old(files), list, original) && CanGo(list) ==> r != Raised
      ensures r == Completed && deleteSources ==> forall i :: 0 <= i < |list| ==>
        list[i].src !in files || list[i].src in locked
      ensures !deleteSources && TargetsNotSources(list) ==> forall i :: 0 <= i < |list| ==>
        SameSource(old(files), files, list[i].src)
    {
      ghost var i: nat, k: nat;
      r, i := CopyEntries(list, blockSize);
      if r != Completed {
        LeavesSafe(old(files), list, locked, deleteSources, original, files);
        LeavesSources(old(files), list, locked, files);
        NotStuck(old(files), list, original, i);
        return;
      }
      k := 0;
      if deleteSources {
        r, k := DeleteSources(list);
        assert k == |list| ==> list[..k] == list;
      }
      assert LeftDeleting(old(files), list, locked, k, files);
      LeavesSafe(old(files), list, locked, deleteSources, original, files);
      CopiedArrives(old(files), list, locked, k, original);
      LeavesSources(old(files), list, locked, files);
      if Covers(list, original) && HasArrived(files, list, original) {
        ArrivedLies(files, list, original);
      }
    }

    /** Any number of runs, each stopped after as many operations as its budget allows. */
    method Retry(list: seq<Entry>, deleteSources: bool, blockSize: nat, budgets: seq<nat>, ghost original: Files)
      returns (r: Outcome)
      requires blockSize > 0 && Apart(list) && Covers(list, original) && Safe(files, list, original)
      modifies this`files, this`budget
      ensures Safe(files, list, original)
      ensures r == Completed ==> HasArrived(files, list, original) && AllLie(files, list, original)
      ensures CanGo(list) ==> r != Raised
    {
      r := Stopped;
      var k := 0;
      while k < |budgets| && r != Completed
        invariant 0 <= k <= |budgets|
        invariant Safe(files, list, original)
        invariant r == Completed ==> HasArrived(files, list, original) && AllLie(files, list, original)
        invariant CanGo(list) ==> r != Raised
      {
        budget := budgets[k];
        r := Run(list, deleteSources, blockSize, original);
        k := k + 1;
      }
    }
  }

  function ReadBlock(content: seq<byte>, position: nat, size: nat): seq<byte> {
    if position >= |content| then []
    else if position + size <= |content| then content[position..position + size]
    else content[position..]
  }

  lemma SourcesGrow(list: seq<Entry>, i: nat)
    requires i < |list|
    ensures Sources(list[..i + 1]) == Sources(list[..i]) + {list[i].src}
  {
    var more := list[..i + 1];
    assert more[i] == list[i];
    assert forall k :: 0 <= k < i ==> more[k] == list[..i][k];
  }

  /** Copying removes nothing. */
  lemma {:induction false} SourcesStay(files: Files, list: seq<Entry>, i: nat)
    requires i <= |list|
    ensures files.Keys <= CopyAll(files, list[..i]).Keys
  {
    if i > 0 {
      SourcesStay(files, list, i - 1);
      assert list[..i][..i - 1] == list[..i - 1];
    }
  }

  // ---- Lists that are apart ----

  predicate SameSource(a: Files, b: Files, src: string) {
    (src in a <==> src in b) && (src in a ==> a[src] == b[src])
  }

  lemma PartwaySafe(a: Files, b: Files, list: seq<Entry>, original: Files, i: nat)
    requires Apart(list) && Covers(list, original) && Safe(a, list, original) && i < |list|
    requires Partway(a, list[i], b)
    ensures Safe(b, list, original)
  {
    forall k | 0 <= k < |list|
      ensures SafeEntry(b, list[k], original[list[k].src])
    {
      assert SafeEntry(a, list[k], original[list[k].src]);
      assert Target(list[i]) != list[k].src;
    }
  }

  lemma CopiedIsPartway(files: Files, e: Entry)
    requires Target(e) != e.src
    ensures Partway(files, e, Copied(files, e))
  {
    if e.src in files {
      assert files[e.src][..|files[e.src]|] == files[e.src];
    }
  }

  lemma {:induction false} CopyAllSafe(files: Files, list: seq<Entry>, original: Files, i: nat)
    requires Apart(list) && Covers(list, original) && Safe(files, list, original) && i <= |list|
    ensures Safe(CopyAll(files, list[..i]), list, original)
    ensures forall k :: 0 <= k < i ==> Arrived(CopyAll(files, list[..i]), list[k], original[list[k].src])
  {
    if i > 0 {
      var before := CopyAll(files, list[..i - 1]);
      CopyAllSafe(files, list, original, i - 1);
      OneMoreCost(files, list, i - 1);
      CopiedIsPartway(before, list[i - 1]);
      PartwaySafe(before, Copied(before, list[i - 1]), list, original, i - 1);
      EntryArrived(before, list, original, i - 1);
    }
  }

  lemma EntryArrived(a: Files, list: seq<Entry>, original: Files, i: nat)
    requires Apart(list) && Covers(list, original) && Safe(a, list, original) && i < |list|
    requires forall k :: 0 <= k < i ==> Arrived(a, list[k], original[list[k].src])
    ensures forall k :: 0 <= k <= i ==> Arrived(Copied(a, list[i]), list[k], original[list[k].src])
  {
    forall k | 0 <= k <= i
      ensures Arrived(Copied(a, list[i]), list[k], original[list[k].src])
    {
      assert SafeEntry(a, list[i], original[list[i].src]);
      assert list[k].src != list[i].src ==> Target(list[k]) != Target(list[i]);
    }
  }

  /** Once everything is copied, deleting sources leaves every destination alone. */
  lemma CopiedArrives(files: Files, list: seq<Entry>, locked: set<string>, k: nat, original: Files)
    requires k <= |list|
    ensures Apart(list) && Covers(list, original) && Safe(files, list, original) ==>
      HasArrived(Removed(CopyAll(files, list), list[..k], locked), list, original)
  {
    if Apart(list) && Covers(list, original) && Safe(files, list, original) {
      CopyAllSafe(files, list, original, |list|);
      assert list[..|list|] == list;
      forall i | 0 <= i < |list|
        ensures Arrived(Removed(CopyAll(files, list), list[..k], locked), list[i], original[list[i].src])
      {
        assert Target(list[i]) !in Sources(list[..k]);
      }
    }
  }

  /** Nothing a run may leave has lost a listed file. */
  lemma LeavesSafe(files: Files, list: seq<Entry>, locked: set<string>, deleteSources: bool, original: Files, g: Files)
    requires Leaves(files, list, locked, deleteSources, g)
    ensures Apart(list) && Covers(list, original) && Safe(files, list, original) ==> Safe(g, list, original)
  {
    if Apart(list) && Covers(list, original) && Safe(files, list, original) {
      forall i: nat | i < |list| && LeftCopying(files, list, i, g) ensures Safe(g, list, original) {
        CopyingSafe(files, list, original, i, g);
      }
      forall k: nat | k <= |list| && LeftDeleting(files, list, locked, k, g) ensures Safe(g, list, original) {
        DeletingSafe(files, list, locked, k, original);
      }
    }
  }

  lemma CopyingSafe(files: Files, list: seq<Entry>, original: Files, i: nat, g: Files)
    requires Apart(list) && Covers(list, original) && Safe(files, list, original)
    requires i < |list| && LeftCopying(files, list, i, g)
    ensures Safe(g, list, original)
  {
    CopyAllSafe(files, list, original, i);
    PartwaySafe(CopyAll(files, list[..i]), g, list, original, i);
  }

  lemma DeletingSafe(files: Files, list: seq<Entry>, locked: set<string>, k: nat, original: Files)
    requires Apart(list) && Covers(list, original) && Safe(files, list, original) && k <= |list|
    ensures Safe(Removed(CopyAll(files, list), list[..k], locked), list, original)
  {
    CopyAllSafe(files, list, original, |list|);
    CopiedArrives(files, list, locked, k, original);
    assert list[..|list|] == list;
    var copied := CopyAll(files, list);
    forall i | 0 <= i < |list|
      ensures SafeEntry(Removed(copied, list[..k], locked), list[i], original[list[i].src])
    {
      assert SafeEntry(copied, list[i], original[list[i].src]);
    }
  }

  // ---- Shared destinations ----

  predicate SameTarget(a: Entry, b: Entry) {
    Target(a) == Target(b)
  }

  /** Entry k is the last of the first n that writes where entry i does. */
  predicate LastWriter(list: seq<Entry>, i: nat, k: nat, n: nat)
    requires i < |list| && k < n <= |list|
  {
    SameTarget(list[k], list[i]) && forall m :: k < m < n ==> !SameTarget(list[m], list[i])
  }

  /** Where two entries share a destination the last one wins. */
  lemma {:induction false} LastOneWins(files: Files, list: seq<Entry>, i: nat, n: nat) returns (k: nat)
    requires TargetsNotSources(list) && Covers(list, files) && i < n <= |list|
    ensures i <= k < n && LastWriter(list, i, k, n)
    ensures Arrived(CopyAll(files, list[..n]), list[i], files[list[k].src])
  {
    if SameTarget(list[n - 1], list[i]) {
      k := n - 1;
    } else {
      k := LastOneWins(files, list, i, n - 1);
    }
    LastWrite(files, list, i, n, k);
  }

  lemma LastWrite(files: Files, list: seq<Entry>, i: nat, n: nat, k: nat)
    requires TargetsNotSources(list) && Covers(list, files) && i < n <= |list| && k < n
    requires if k == n - 1 then SameTarget(list[k], list[i])
             else !SameTarget(list[n - 1], list[i]) &&
                  Arrived(CopyAll(files, list[..n - 1]), list[i], files[list[k].src])
    ensures Arrived(CopyAll(files, list[..n]), list[i], files[list[k].src])
  {
    var before := CopyAll(files, list[..n - 1]);
    OneMoreCopy(files, list, n - 1);
    SourceUntouched(files, list, n - 1, n - 1);
    if k == n - 1 {
      CopiedHere(before, list[k], list[i]);
    } else {
      CopiedElsewhere(before, list[n - 1], list[i], files[list[k].src]);
    }
  }

  lemma OneMoreCopy(files: Files, list: seq<Entry>, i: nat)
    requires i < |list|
    ensures CopyAll(files, list[..i + 1]) == Copied(CopyAll(files, list[..i]), list[i])
  {
    assert list[..i + 1][..i] == list[..i];
  }

  lemma CopiedHere(files: Files, e: Entry, other: Entry)
    requires e.src in files && Target(e) == Target(other)
    ensures Arrived(Copied(files, e), other, files[e.src])
  {
  }

  lemma CopiedElsewhere(files: Files, e: Entry, other: Entry, content: seq<byte>)
    requires Arrived(files, other, content) && Target(e) != Target(other)
    ensures Arrived(Copied(files, e), other, content)
  {
  }

  lemma SourceUntouched(files: Files, list: seq<Entry>, n: nat, k: nat)
    requires TargetsNotSources(list) && n <= |list| && k < |list|
    ensures SameSource(files, CopyAll(files, list[..n]), list[k].src)
  {
    SourcesUntouched(files, list, n);
  }

  lemma {:induction false} SourcesUntouched(files: Files, list: seq<Entry>, n: nat)
    requires TargetsNotSources(list) && n <= |list|
    ensures forall k :: 0 <= k < |list| ==> SameSource(files, CopyAll(files, list[..n]), list[k].src)
  {
    if n > 0 {
      assert list[..n][..n - 1] == list[..n - 1];
      SourcesUntouched(files, list, n - 1);
    }
  }

  /** A completed copy delivers every file, whatever the files contain, if and only if different
      sources go to different destinations. Two captures with the same file name sent to one
      folder are the failing case: the job completes, and deletes both sources. */
  lemma DeliversIffDistinct(list: seq<Entry>)
    requires TargetsNotSources(list)
    ensures (forall files: Files :: Covers(list, files) ==> HasArrived(CopyAll(files, list), list, files)) <==>
      Distinct(list)
  {
    assert list[..|list|] == list;
    if Distinct(list) {
      forall files: Files | Covers(list, files)
        ensures HasArrived(CopyAll(files, list), list, files)
      {
        forall i | 0 <= i < |list|
          ensures Arrived(CopyAll(files, list), list[i], files[list[i].src])
        {
          var k := LastOneWins(files, list, i, |list|);
        }
      }
    } else {
      var i, j :| 0 <= i < |list| && 0 <= j < |list| && list[i].src != list[j].src &&
        Target(list[i]) == Target(list[j]);
      var files := Marked(list, list[i].src);
      SharedTargetLoses(list, i, j);
    }
  }

  lemma OneTargetOneContent(list: seq<Entry>, i: nat, j: nat, r: Files, files: Files)
    requires i < |list| && j < |list| && Target(list[i]) == Target(list[j])
    requires Covers(list, files) && HasArrived(r, list, files)
    ensures files[list[i].src] == files[list[j].src]
  {
    assert Arrived(r, list[i], files[list[i].src]) && Arrived(r, list[j], files[list[j].src]);
  }

  /** Files that hold one thing at one source and another at all the others. */
  function Marked(list: seq<Entry>, ours: string): (files: Files)
    ensures Covers(list, files)
  {
    map s | s in Sources(list) :: if s == ours then [1] else [0]
  }

  lemma SharedTargetLoses(list: seq<Entry>, i: nat, j: nat)
    requires i < |list| && j < |list|
    requires list[i].src != list[j].src && Target(list[i]) == Target(list[j])
    ensures var files := Marked(list, list[i].src); !HasArrived(CopyAll(files, list), list, files)
  {
    var files := Marked(list, list[i].src);
    assert files[list[i].src][0] != files[list[j].src][0];
    if HasArrived(CopyAll(files, list), list, files) {
      OneTargetOneContent(list, i, j, CopyAll(files, list), files);
    }
  }

  lemma PartwaySource(before: Files, e: Entry, g: Files, src: string)
    requires Partway(before, e, g) && Target(e) != src
    ensures SameSource(before, g, src)
  {
  }

  lemma LeavesSource(files: Files, list: seq<Entry>, locked: set<string>, g: Files, j: nat)
    requires TargetsNotSources(list) && Leaves(files, list, locked, false, g) && j < |list|
    ensures SameSource(files, g, list[j].src)
  {
    if i: nat :| i < |list| && LeftCopying(files, list, i, g) {
      SourceUntouched(files, list, i, j);
      PartwaySource(CopyAll(files, list[..i]), list[i], g, list[j].src);
    } else {
      assert LeftDeleting(files, list, locked, 0, g);
      assert list[..|list|] == list && list[..0] == [];
      SourceUntouched(files, list, |list|, j);
    }
  }

  /** A run without deletion leaves the sources alone. */
  lemma LeavesSources(files: Files, list: seq<Entry>, locked: set<string>, g: Files)
    ensures TargetsNotSources(list) && Leaves(files, list, locked, false, g) ==>
      forall j :: 0 <= j < |list| ==> SameSource(files, g, list[j].src)
  {
    if TargetsNotSources(list) && Leaves(files, list, locked, false, g) {
      forall j | 0 <= j < |list| ensures SameSource(files, g, list[j].src) {
        LeavesSource(files, list, locked, g, j);
      }
    }
  }

  // ---- Runs that lose nothing ----

  /** Each listed file's original content is at its source or at its destination. */
  predicate Kept(g: Files, list: seq<Entry>, original: Files)
    requires Covers(list, original)
  {
    forall i :: 0 <= i < |list| ==> KeptEntry(g, list[i], original[list[i].src])
  }

  predicate KeptEntry(g: Files, e: Entry, content: seq<byte>) {
    (e.src in g && g[e.src] == content) || Arrived(g, e, content)
  }

  /** No run with deletion, of any files and wherever it stops, loses a listed file. */
  ghost predicate LosesNothing(list: seq<Entry>) {
    forall files: Files, locked: set<string>, g: Files ::
      Covers(list, files) && Leaves(files, list, locked, true, g) ==> Kept(g, list, files)
  }

  lemma UndisturbedLeaves(files: Files, list: seq<Entry>)
    ensures Leaves(files, list, {}, true, Undisturbed(files, list))
  {
    var i := FirstSelf(list, 0);
    if i < |list| {
      SelfLeaves(files, list, i);
    } else {
      assert list[..|list|] == list;
      assert LeftDeleting(files, list, {}, |list|, Undisturbed(files, list));
    }
  }

  lemma SelfLeaves(files: Files, list: seq<Entry>, i: nat)
    requires i < |list| && Target(list[i]) == list[i].src
    ensures LeftCopying(files, list, i, CopyAll(files, list[..i]) - {list[i].src})
  {
    var before := CopyAll(files, list[..i]);
    if list[i].src !in before {
      assert before - {list[i].src} == before;
    }
  }

  /** A list that is not apart loses a file even when nothing stops the run: the first file that is
      its own destination at its own removal; otherwise, among the deletions at the end, any file
      whose destination is a source, or all but the last of those that share a destination. */
  lemma UndisturbedLoses(list: seq<Entry>) returns (files: Files)
    requires !Apart(list)
    ensures Covers(list, files) && !Kept(Undisturbed(files, list), list, files)
  {
    var self := FirstSelf(list, 0);
    if self < |list| {
      files := Marked(list, list[self].src);
      SelfLoses(files, list);
    } else if !TargetsNotSources(list) {
      var i, j :| 0 <= i < |list| && 0 <= j < |list| && Target(list[i]) == list[j].src;
      files := Marked(list, list[i].src);
      ChainLoses(files, list, i, j);
    } else {
      var i, j :| 0 <= i < |list| && 0 <= j < |list| && list[i].src != list[j].src &&
        Target(list[i]) == Target(list[j]);
      files := Marked(list, list[i].src);
      SharedTargetLoses(list, i, j);
      DeletedSources(files, list);
    }
  }

  lemma SelfLoses(files: Files, list: seq<Entry>)
    requires Covers(list, files) && FirstSelf(list, 0) < |list|
    ensures !Kept(Undisturbed(files, list), list, files)
  {
    var self := FirstSelf(list, 0);
    assert !KeptEntry(Undisturbed(files, list), list[self], files[list[self].src]);
  }

  lemma ChainLoses(files: Files, list: seq<Entry>, i: nat, j: nat)
    requires Covers(list, files) && i < |list| && j < |list| && Target(list[i]) == list[j].src
    ensures !Kept(Removed(CopyAll(files, list), list, {}), list, files)
  {
    assert list[i].src in Sources(list) && list[j].src in Sources(list);
    assert !KeptEntry(Removed(CopyAll(files, list), list, {}), list[i], files[list[i].src]);
  }

  lemma DeletedSources(files: Files, list: seq<Entry>)
    requires Covers(list, files) && TargetsNotSources(list) && !HasArrived(CopyAll(files, list), list, files)
    ensures !Kept(Removed(CopyAll(files, list), list, {}), list, files)
  {
    var i :| 0 <= i < |list| && !Arrived(CopyAll(files, list), list[i], files[list[i].src]);
    assert list[i].src in Sources(list) && Target(list[i]) !in Sources(list);
    assert !KeptEntry(Removed(CopyAll(files, list), list, {}), list[i], files[list[i].src]);
  }

  lemma SafeIsKept(g: Files, list: seq<Entry>, original: Files)
    requires Covers(list, original) && Safe(g, list, original)
    ensures Kept(g, list, original)
  {
    forall i | 0 <= i < |list| ensures KeptEntry(g, list[i], original[list[i].src]) {
      assert SafeEntry(g, list[i], original[list[i].src]);
    }
  }

  /** A run with deletion keeps every listed content at its source or its destination, wherever it
      stops and whatever the files contain, if and only if no destination is a source and
      different sources have different destinations. */
  lemma LosesNothingIff(list: seq<Entry>)
    ensures LosesNothing(list) <==> Apart(list)
  {
    if Apart(list) {
      forall files: Files, locked: set<string>, g: Files | Covers(list, files) && Leaves(files, list, locked, true, g)
        ensures Kept(g, list, files)
      {
        LeavesSafe(files, list, locked, true, files, g);
        SafeIsKept(g, list, files);
      }
    } else {
      var files := UndisturbedLoses(list);
      UndisturbedLeaves(files, list);
    }
  }
}
