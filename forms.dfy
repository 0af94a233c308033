/** The browser's `FormData`: an ordered list of named entries, each a string
    or a file, as the client pages build it and the server actions read it. */
module Forms {

  import opened Wrappers

  /** A selected file; only its name and byte size matter here. */
  datatype File = File(name: string, size: nat)

  datatype FormValue = Text(text: string) | Blob(file: File)

  type FormData = seq<(string, FormValue)>

  /** `formData.get(name)`: the first entry with that name, or null. */
  function Get(fd: FormData, name: string): (r: Option<FormValue>)
    ensures r.None? <==> forall i :: 0 <= i < |fd| ==> fd[i].0 != name
    ensures r.Some? ==> exists i :: 0 <= i < |fd| && fd[i] == (name, r.value)
                                    && forall j :: 0 <= j < i ==> fd[j].0 != name
  {
    if fd == [] then None
    else if fd[0].0 == name then Some(fd[0].1)
    else
      var r := Get(fd[1..], name);
      assert forall i :: 1 <= i < |fd| ==> fd[i] == fd[1..][i - 1];
      r
  }

  /** `formData.getAll(name)`: every value with that name, in order. */
  function GetAll(fd: FormData, name: string): (r: seq<FormValue>)
    ensures |r| <= |fd|
    ensures forall v :: v in r ==> (name, v) in fd
  {
    if fd == [] then []
    else (if fd[0].0 == name then [fd[0].1] else []) + GetAll(fd[1..], name)
  }

  lemma {:induction false} GetAllAppend(a: FormData, b: FormData, name: string)
    ensures GetAll(a + b, name) == GetAll(a, name) + GetAll(b, name)
    decreases |a|
  {
    if a != [] {
      assert (a + b)[1..] == a[1..] + b;
      GetAllAppend(a[1..], b, name);
    } else {
      assert a + b == b;
    }
  }

  /** Entries that all carry the same name contribute all their values. */
  lemma {:induction false} GetAllOfOneName(fs: seq<File>, name: string)
    ensures GetAll(Entries(name, fs), name) == Blobs(fs)
    decreases |fs|
  {
    if fs != [] {
      assert Entries(name, fs)[1..] == Entries(name, fs[1..]);
      GetAllOfOneName(fs[1..], name);
    }
  }

  /** Entries without the name contribute nothing. */
  lemma {:induction false} GetAllOtherName(fd: FormData, name: string)
    requires forall i :: 0 <= i < |fd| ==> fd[i].0 != name
    ensures GetAll(fd, name) == []
    decreases |fd|
  {
    if fd != [] { GetAllOtherName(fd[1..], name); }
  }

  /** One `name` entry per file, in order. */
  function Entries(name: string, fs: seq<File>): (r: FormData)
    ensures |r| == |fs|
    ensures forall i :: 0 <= i < |fs| ==> r[i] == (name, Blob(fs[i]))
  {
    if fs == [] then [] else [(name, Blob(fs[0]))] + Entries(name, fs[1..])
  }

  function Blobs(fs: seq<File>): (r: seq<FormValue>)
    ensures |r| == |fs| && forall i :: 0 <= i < |fs| ==> r[i] == Blob(fs[i])
  {
    if fs == [] then [] else [Blob(fs[0])] + Blobs(fs[1..])
  }
}
