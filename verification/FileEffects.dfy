/** What each file action does to the disk and what it answers: agentflow/tools/filesystem_tool.py through
    the registry's call, for every disk and every target. */
module FileEffects {

  import opened ParallelFiles
  import opened Options

  function Do(disk: Disk, p: Path, a: Action): (Disk, Result) {
    Command(disk, FileTask(Some(p), a))
  }

  /** The entry at `x`, the workspace included. */
  ghost predicate SameBut(before: Disk, after: Disk, changed: set<Path>) {
    forall x :: x !in changed ==> Look(after, x) == Look(before, x)
  }

  /** The workspace itself is a directory; everything else is what the disk holds there. */
  lemma LookIs(disk: Disk, p: Path)
    ensures Look(disk, []) == Some(Dir)
    ensures p != [] ==> (Look(disk, p).Some? <==> p in disk) && (p in disk ==> Look(disk, p) == Some(disk[p]))
  {
  }

  // ---------------------------------------------------------------- looking

  /** Looking changes nothing; a read gives the text of the file, a check what stands there. */
  lemma LookingIs(disk: Disk, p: Path)
    ensures Do(disk, p, Read).0 == disk && Do(disk, p, Exists).0 == disk
    ensures forall c :: Do(disk, p, Read).1 == Content(c) <==> Look(disk, p) == Some(File(c))
    ensures Do(disk, p, Read).1 == Failed(NotFound) <==> Look(disk, p).None?
    ensures Do(disk, p, Read).1 == Failed(IsDirectory) <==> Look(disk, p) == Some(Dir)
    ensures forall k :: Do(disk, p, Exists).1 == Found(k) <==> Look(disk, p) == k
  {
  }

  /** A listing or tree shows what stands at and below its directory, all of it and nothing else. */
  lemma ListingIs(disk: Disk, p: Path, a: Action)
    requires Lists(a)
    ensures Do(disk, p, a).0 == disk
    ensures Do(disk, p, a).1.Listed? <==> Look(disk, p) == Some(Dir)
    ensures Do(disk, p, a).1.Listed? ==>
              var seen := Do(disk, p, a).1.seen;
              forall x :: (x in seen <==> x in disk && p <= x) && (x in seen ==> seen[x] == disk[x])
    ensures Look(disk, p) != Some(Dir) ==>
              Do(disk, p, a).1 == Failed(if a.Tree? then InvalidDirectory
                                         else if Look(disk, p).None? then NotFound else NotDirectory)
  {
  }

  // ---------------------------------------------------------------- writing

  /** Where nothing is in the way, the text is in the file and can be read back. */
  lemma ReadAfterWrite(disk: Disk, p: Path, c: string)
    requires p != [] && ParentsClear(disk, p) && Look(disk, p) != Some(Dir)
    ensures var (after, r) := Do(disk, p, Write(c));
            r == Written && Do(after, p, Read) == (after, Content(c)) && Do(after, p, Exists).1 == Found(Some(File(c)))
  {
    WriteEffect(disk, p, c);
    LookingIs(Do(disk, p, Write(c)).0, p);
    hide Command;
  }

  /** The first ancestor that is a file. */
  ghost predicate FirstFile(disk: Disk, p: Path, d: nat) {
    && 1 <= d < |p| && Look(disk, p[..d]).Some? && Look(disk, p[..d]).value.File?
    && forall k :: 1 <= k < d ==> Look(disk, p[..k]).None? || Look(disk, p[..k]) == Some(Dir)
  }

  lemma {:induction false} BlockedParents(disk: Disk, p: Path, d: nat, n: nat)
    requires FirstFile(disk, p, d) && 1 <= n <= d
    ensures var (made, clear) := MakeParents(disk, p, n);
            && !clear
            && (forall k :: n <= k < d ==> Look(made, p[..k]) == Some(Dir))
            && (forall x :: (forall k :: n <= k < d ==> x != p[..k]) ==> Look(made, x) == Look(disk, x))
    decreases d - n
  {
    if n < d {
      var next := if Look(disk, p[..n]).None? then disk[p[..n] := Dir] else disk;
      forall k | n < k < |p| ensures p[..k] != p[..n] { assert |p[..k]| != |p[..n]|; }
      BlockedParents(next, p, d, n + 1);
    }
  }

  /** A write into a place below a file fails; the directories above that file are made and nothing else
      changes. */
  lemma WriteBelowFile(disk: Disk, p: Path, c: string, d: nat)
    requires FirstFile(disk, p, d)
    ensures var (after, r) := Do(disk, p, Write(c));
            && r == Failed(ParentIsFile)
            && (forall k :: 1 <= k < d ==> Look(after, p[..k]) == Some(Dir))
            && (forall x :: !(x <= p && 1 <= |x| < d) ==> Look(after, x) == Look(disk, x))
  {
    BlockedParents(disk, p, d, 1);
    forall x, k | 1 <= k < d && x == p[..k] ensures x <= p && 1 <= |x| < d {
    }
  }

  /** A write over a directory fails and leaves it there. */
  lemma WriteOverDirectory(disk: Disk, p: Path, c: string)
    requires ParentsClear(disk, p) && Look(disk, p) == Some(Dir)
    ensures var (after, r) := Do(disk, p, Write(c));
            && r == Failed(IsDirectory) && Look(after, p) == Some(Dir)
            && (forall x :: !(x <= p) ==> Look(after, x) == Look(disk, x))
  {
    MakeParentsEffect(disk, p, 1);
    forall k | 1 <= k < |p| ensures p[..k] != p && p[..k] <= p { assert |p[..k]| != |p|; }
  }

  /** An append adds the text at the end of the file and changes nothing else; without a file it fails and
      changes nothing at all. */
  lemma AppendIs(disk: Disk, p: Path, c: string, d: string)
    ensures Look(disk, p) == Some(File(c)) ==>
              var (after, r) := Do(disk, p, Append(d));
              r == Appended && Look(after, p) == Some(File(c + d)) && SameBut(disk, after, {p})
    ensures Look(disk, p).None? ==> Do(disk, p, Append(d)) == (disk, Failed(NotFound))
    ensures Look(disk, p) == Some(Dir) ==> Do(disk, p, Append(d)) == (disk, Failed(IsDirectory))
  {
  }

  /** What was written and appended is read back, in that order. */
  lemma ReadAfterAppend(disk: Disk, p: Path, c: string, d: string)
    requires p != [] && ParentsClear(disk, p) && Look(disk, p) != Some(Dir)
    ensures Do(Do(Do(disk, p, Write(c)).0, p, Append(d)).0, p, Read).1 == Content(c + d)
  {
    WriteEffect(disk, p, c);
    var written := Do(disk, p, Write(c)).0;
    AppendIs(written, p, c, d);
    LookingIs(Do(written, p, Append(d)).0, p);
    hide Command;
  }

  /** A create is a write where nothing stands, and fails and changes nothing where something does. */
  lemma CreateIs(disk: Disk, p: Path, c: string)
    ensures Look(disk, p).Some? ==> Do(disk, p, Create(c)) == (disk, Failed(AlreadyExists))
    ensures Look(disk, p).None? ==>
              var (after, r) := Do(disk, p, Create(c));
              after == Do(disk, p, Write(c)).0
              && r == if Do(disk, p, Write(c)).1 == Written then Created else Do(disk, p, Write(c)).1
  {
    MakeAndPutResult(disk, p, 1, c);
  }

  lemma MakeAndPutResult(disk: Disk, p: Path, d: nat, c: string)
    ensures MakeAndPut(disk, p, d, c, Created).0 == MakeAndPut(disk, p, d, c, Written).0
    ensures MakeAndPut(disk, p, d, c, Created).1
         == (var r := MakeAndPut(disk, p, d, c, Written).1; if r == Written then Created else r)
  {
  }

  /** A create on a free place has the effect of a successful write. */
  lemma CreatedIsThere(disk: Disk, p: Path, c: string)
    requires p != [] && ParentsClear(disk, p) && Look(disk, p).None?
    ensures var (after, r) := Do(disk, p, Create(c));
            && r == Created && Look(after, p) == Some(File(c))
            && (forall k :: 1 <= k < |p| ==> Look(after, p[..k]) == Some(Dir))
            && (forall x :: !(x <= p) ==> Look(after, x) == Look(disk, x))
  {
    CreateIs(disk, p, c);
    WriteEffect(disk, p, c);
    hide Command;
  }

  // ---------------------------------------------------------------- refused tasks

  /** A task without a target fails and changes nothing, whatever its action; a search never changes
      anything. */
  lemma RefusedIs(disk: Disk, a: Action)
    ensures !a.WebSearch? ==> Command(disk, FileTask(None, a)) == (disk, Failed(InvalidPath))
    ensures forall t: FileTask :: t.action.WebSearch? ==>
              && Command(disk, t).0 == disk
              && (Command(disk, t).1.Failed? <==> t.action.reply.None?)
              && (t.action.reply.Some? ==> Command(disk, t).1 == Reply(t.action.reply.value))
  {
  }
}
