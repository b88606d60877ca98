/**
 A directory as processes share it: names lead to inodes, inodes hold contents.
 Each function is one system call, which the kernel carries out in one step.
 */
module FileSystem {

  newtype byte = x: int | 0 <= x < 256

  type Bytes = seq<byte>

  type Inode = nat

  datatype Disk<T> = Disk(names: map<string, Inode>, data: map<Inode, seq<T>>) {

    ghost predicate Valid() {
      forall n :: n in names ==> names[n] in data
    }

    /** What a reader who opens the name now and reads to the end would get. */
    function Contents(name: string): seq<T>
      requires Valid() && name in names
    {
      data[names[name]]
    }

    /** open with O_CREAT|O_EXCL of a name that is not bound. */
    function Create(name: string, inode: Inode): Disk<T> {
      Disk(names[name := inode], data[inode := []])
    }

    function Append(inode: Inode, chunk: seq<T>): Disk<T>
      requires inode in data
    {
      Disk(names, data[inode := data[inode] + chunk])
    }

    /** link fails with EEXIST rather than replace its target. */
    function Link(source: string, target: string): Disk<T>
      requires source in names && target !in names
    {
      Disk(names[target := names[source]], data)
    }

    /** rename replaces its target. */
    function Rename(source: string, target: string): Disk<T>
      requires source in names && source != target
    {
      Disk((names - {source})[target := names[source]], data)
    }

    function Unlink(name: string): Disk<T> {
      Disk(names - {name}, data)
    }
  }

  // ---------- Names and inodes never run out ----------

  lemma {:induction false} LongestName(names: set<string>) returns (length: nat)
    ensures forall n :: n in names ==> |n| <= length
  {
    if names == {} {
      length := 0;
    } else {
      var n :| n in names;
      length := LongestName(names - {n});
      length := if |n| > length then |n| else length;
    }
  }

  lemma UnusedName(names: set<string>) returns (name: string)
    ensures name !in names
  {
    var length := LongestName(names);
    name := seq(length + 1, _ => 'x');
  }

  lemma {:induction false} UnusedInode(inodes: set<Inode>) returns (inode: Inode)
    ensures forall i :: i in inodes ==> i < inode
  {
    if inodes == {} {
      inode := 0;
    } else {
      var i :| i in inodes;
      inode := UnusedInode(inodes - {i});
      assert forall j :: j in inodes ==> j == i || j in inodes - {i};
      inode := if i >= inode then i + 1 else inode;
    }
  }
}
