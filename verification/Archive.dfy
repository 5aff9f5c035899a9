/** The conflict archives: candidates kept under the digest of their own bytes (storage/conflict.go). */
module Archive {
  import opened Objects

  type Digest = nat
  type Files = map<Digest, Body>

  /** How publishing goes: the temporary copy could not be completed, or everything up to the
      link worked and the directory sync afterwards did or did not. */
  datatype PublishIo = TempFailed | LinkFailed | Linked(synced: bool)

  /** PreserveConflict: link the finished copy under its digest unless the name is taken; a taken
      name is accepted only when it already holds the same bytes. */
  function Preserve(files: Files, digest: Body -> Digest, data: Body, io: PublishIo): (Files, bool) {
    var path := digest(data);
    match io
    case TempFailed => (files, false)
    case LinkFailed => (files, false)
    case Linked(synced) =>
      if path !in files then (files[path := data], synced)
      else (files, files[path] == data && synced)
  }

  /** Write-once: nothing archived is ever changed or removed, whatever is offered next. */
  lemma ArchiveOnlyGrows(files: Files, digest: Body -> Digest, data: Body, io: PublishIo)
    ensures var (files', ok) := Preserve(files, digest, data, io);
            && (forall p | p in files :: p in files' && files'[p] == files[p])
            && (ok ==> data in files'.Values)
            && files'.Values <= files.Values + {data}
  {
    var (files', ok) := Preserve(files, digest, data, io);
    if ok {
      assert files'[digest(data)] == data;
    }
  }

  /** Identical retries reuse the file; a different edit with the same digest is refused, not overwritten. */
  lemma RetryOrRefuse(files: Files, digest: Body -> Digest, first: Body, second: Body)
    requires Preserve(files, digest, first, Linked(true)).1 && digest(first) == digest(second)
    ensures var files' := Preserve(files, digest, first, Linked(true)).0;
            Preserve(files', digest, second, Linked(true)) == (files', first == second)
  {
  }

  class Folder {
    const digest: Body -> Digest
    var files: Files

    constructor (digest: Body -> Digest)
      ensures this.digest == digest && files == map[]
    {
      this.digest := digest;
      files := map[];
    }

    method PreserveConflict(data: Body, io: PublishIo) returns (ok: bool)
      modifies this
      ensures (files, ok) == Preserve(old(files), digest, data, io)
    {
      if !io.Linked? { return false; }
      var path := digest(data);
      if path in files {
        if files[path] != data { return false; }
      } else {
        files := files[path := data];
      }
      return io.synced;
    }
  }
}
