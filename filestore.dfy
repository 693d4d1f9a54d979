/**
 * The local directory and the three file operations the updater performs
 * on it: `downloadFile`, `calculateMD5` and `os.Remove` (main.go).  What
 * the network and the disk answer is an oracle given by the caller, call
 * by call; MD5 itself is an opaque function of content.
 */
module FileStore {

  import opened Wrappers

  type Content = seq<bv8>

  /** The working directory: file name to content. */
  type Files = map<string, Content>

  /**
   * What happens to one `downloadFile` call on the transport side: the
   * server answered 200 and `body` was copied in full; the call failed
   * before the local file was created (connection error, non-200 status,
   * `os.Create` failure); or `io.Copy` failed after the file was created,
   * leaving `partial` behind.  Each call has its own answer, so two
   * downloads of one URL may deliver different bodies.
   */
  datatype Transfer = Delivered(body: Content) | Refused | Interrupted(partial: Content)

  /** Whether an operation succeeded, and the directory afterwards. */
  datatype Written = Written(ok: bool, files: Files)

  /** One file operation as it is performed, in order. */
  datatype Action =
    | Get(url: string, name: string)
    | Hash(name: string)
    | Delete(name: string)

  /** `downloadFile(url, name)`: the URL itself only appears in the log of actions. */
  function Download(files: Files, name: string, t: Transfer): (w: Written)
    ensures w.ok <==> t.Delivered?
    ensures w.ok ==> w.files == files[name := t.body]
    ensures !w.ok ==> w.files == files || (t.Interrupted? && w.files == files[name := t.partial])
    ensures forall k :: k != name ==> (k in w.files <==> k in files)
    ensures forall k :: k != name && k in files ==> w.files[k] == files[k]
  {
    match t
    case Refused => Written(false, files)
    case Interrupted(partial) => Written(false, files[name := partial])
    case Delivered(body) => Written(true, files[name := body])
  }

  /**
   * `calculateMD5(name)`: the digest of the file's content, or `None` when
   * the file cannot be opened or read (`readOk` is the disk's answer).
   */
  function Digest(files: Files, name: string, readOk: bool, md5: Content -> string): (h: Option<string>)
    ensures h.Some? ==> name in files && h.value == md5(files[name])
  {
    if name in files && readOk then Some(md5(files[name])) else None
  }

  /** `os.Remove(name)`: fails on a missing file or when the disk refuses (`removeOk`). */
  function Remove(files: Files, name: string, removeOk: bool): (w: Written)
    ensures w.ok ==> name in files && w.files == files - {name}
    ensures !w.ok ==> w.files == files
  {
    if name in files && removeOk then Written(true, files - {name}) else Written(false, files)
  }

  /** How many downloads a sequence of actions performs. */
  function Downloads(t: seq<Action>): (n: nat)
    ensures n <= |t|
  {
    if t == [] then 0 else (if t[0].Get? then 1 else 0) + Downloads(t[1..])
  }

  /** How many digests a sequence of actions computes. */
  function Hashes(t: seq<Action>): (n: nat)
    ensures n <= |t|
  {
    if t == [] then 0 else (if t[0].Hash? then 1 else 0) + Hashes(t[1..])
  }

  lemma {:induction false} CountsAppend(a: seq<Action>, b: seq<Action>)
    ensures Downloads(a + b) == Downloads(a) + Downloads(b)
    ensures Hashes(a + b) == Hashes(a) + Hashes(b)
  {
    if a == [] {
      assert a + b == b;
    } else {
      assert (a + b)[0] == a[0];
      assert (a + b)[1..] == a[1..] + b;
      CountsAppend(a[1..], b);
    }
  }
}
