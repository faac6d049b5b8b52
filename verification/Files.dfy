/** Files, and the operations on them that can fail.
  *
  * Which operations fail is given by a script, one entry per operation; after its end
  * none does. */
module Files {
  import opened Options

  datatype Path =
    | Token | AdminToken | Shim | ControlInit | ControlManifest
    | ConfigFile | Backup | AliasBackup | ConfigureBackup | Elsewhere(n: nat)

  /** Text that is there as UTF-8, or bytes that are not. */
  datatype Content = Utf8(text: string) | Undecodable(n: nat)

  type Contents = map<Path, Content>

  function At(files: Contents, p: Path): Option<Content> {
    if p in files then Some(files[p]) else None
  }

  /** Nothing but these paths differs. */
  ghost predicate OnlyChanges(before: Contents, after: Contents, paths: set<Path>) {
    forall p :: p !in paths ==> At(after, p) == At(before, p)
  }

  lemma SameEverywhere(before: Contents, after: Contents)
    requires forall p :: At(after, p) == At(before, p)
    ensures after == before
  {
    forall p ensures p in after <==> p in before {
      assert At(after, p) == At(before, p);
    }
    forall p | p in before ensures after[p] == before[p] {
      assert At(after, p) == At(before, p);
    }
  }

  /** Text read with universal newlines. */
  function Newlines(text: string): string {
    if text == "" then ""
    else if text[0] == '\r' then
      "\n" + Newlines(if |text| > 1 && text[1] == '\n' then text[2..] else text[1..])
    else [text[0]] + Newlines(text[1..])
  }

  lemma {:induction false} NewlinesKeepIff(text: string)
    ensures '\r' !in Newlines(text) && |Newlines(text)| <= |text|
    ensures Newlines(text) == text <==> '\r' !in text
    decreases |text|
  {
    if text != "" {
      if text[0] == '\r' {
        NewlinesKeepIff(if |text| > 1 && text[1] == '\n' then text[2..] else text[1..]);
        assert Newlines(text)[0] == '\n';
      } else {
        NewlinesKeepIff(text[1..]);
        assert text == [text[0]] + text[1..];
        assert Newlines(text)[1..] == Newlines(text[1..]);
      }
    }
  }

  datatype BytesRead = Missing | Unreadable | Got(content: Content)

  class Disk {
    var files: Contents
    var faults: seq<bool>

    constructor (files: Contents, faults: seq<bool>)
      ensures this.files == files && this.faults == faults
    {
      this.files, this.faults := files, faults;
    }

    /** Whether the operation now begun works. */
    method Works() returns (ok: bool)
      modifies `faults
      ensures old(faults) == [] ==> ok && faults == []
    {
      ok := faults == [] || !faults[0];
      faults := if faults == [] then [] else faults[1..];
    }

    method ReadBytes(p: Path) returns (r: BytesRead)
      modifies `faults
      ensures r.Missing? ==> p !in files
      ensures r.Got? ==> At(files, p) == Some(r.content)
      ensures old(faults) == [] ==> faults == [] && !r.Unreadable?
    {
      var ok := Works();
      r := if p !in files then Missing else if ok then Got(files[p]) else Unreadable;
    }

    /** A temporary file put in place of the old one. */
    method WriteAtomic(p: Path, content: Content) returns (ok: bool)
      modifies this
      ensures files == if ok then old(files)[p := content] else old(files)
      ensures old(faults) == [] ==> ok && faults == []
    {
      ok := Works();
      if ok {
        files := files[p := content];
      }
    }

    /** A write into the file itself: if it fails, `partial` is what is there. */
    method WriteInPlace(p: Path, content: Content, partial: Option<Content>) returns (ok: bool)
      modifies this
      ensures ok ==> files == old(files)[p := content]
      ensures OnlyChanges(old(files), files, {p})
      ensures old(faults) == [] ==> ok && faults == []
    {
      ok := Works();
      files := if ok then files[p := content] else if partial.Some? then files[p := partial.value] else files - {p};
    }

    /** `unlink(missing_ok=True)`. */
    method Unlink(p: Path) returns (ok: bool)
      modifies this
      ensures files == if ok then old(files) - {p} else old(files)
      ensures old(faults) == [] ==> ok && faults == []
    {
      ok := Works();
      if ok {
        files := files - {p};
      }
    }
  }
}
