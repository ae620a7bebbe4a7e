/** The wiki store's contract, on a directory (`LocalDirClient`,
    shared/wiki/lapis_client.py). */
module Vault {
  import opened Options

  /** A page's directory and its file name without `.md`. */
  datatype Path = Path(dir: string, name: string)

  type Files = map<Path, string>

  /** What a refused write leaves for a person: what was there, and what was to
      replace it. */
  datatype Note = Note(path: Path, base: string, found: string, attempted: string)

  datatype WriteResult = Written | Conflict | NoBase

  class LocalDir {
    /** A content hash, taken to tell contents apart. */
    const rev: string -> string
    var files: Files
    var notes: seq<Note>

    /** The pages after each operation so far: where the program may stop. */
    ghost var past: seq<Files>

    constructor (rev: string -> string)
      ensures files == map[] && notes == [] && past == [] && this.rev == rev
    {
      this.rev := rev;
      files, notes, past := map[], [], [];
    }

    /** Create-if-absent: an existing page is never touched. */
    method Create(p: Path, content: string) returns (created: bool)
      modifies this`files, this`past
      ensures created == (p !in old(files))
      ensures files == if created then old(files)[p := content] else old(files)
      ensures past == old(past) + [files]
    {
      created := p !in files;
      if created { files := files[p := content]; }
      past := past + [files];
    }

    /** Replaces a page read at `base`. A stale base is a conflict: it never
        overwrites, and leaves a note. No base at all is refused outright. */
    method Write(p: Path, content: string, base: string) returns (r: WriteResult)
      modifies this`files, this`notes, this`past
      ensures r == if base == "" then NoBase
                   else if p in old(files) && rev(old(files)[p]) == base then Written else Conflict
      ensures files == if r == Written then old(files)[p := content] else old(files)
      ensures notes == if r == Conflict
                       then old(notes) + [Note(p, base, if p in old(files) then old(files)[p] else "", content)]
                       else old(notes)
      ensures past == old(past) + [files]
    {
      if base == "" {
        r := NoBase;
      } else if p in files && rev(files[p]) == base {
        files := files[p := content];
        r := Written;
      } else {
        notes := notes + [Note(p, base, if p in files then files[p] else "", content)];
        r := Conflict;
      }
      past := past + [files];
    }

    method Delete(p: Path)
      modifies this`files, this`past
      ensures files == old(files) - {p} && past == old(past) + [files]
    {
      files := files - {p};
      past := past + [files];
    }
  }
}
