/** The setup command as a transaction over the files it manages. */
module Setup {
  import opened Options
  import opened Files
  import opened Documents
  import opened Writers

  // ---------------------------------------------------------------- the shims

  /** What is to be written - nothing if rendering it raises - and how a file of this
    * project's own begins. */
  datatype Managed = Managed(source: Option<string>, owns: string -> bool)

  /** The file is there as it was to be written. */
  predicate Stands(files: Contents, p: Path, m: Managed) {
    m.source.Some? && At(files, p) == Some(Utf8(m.source.value))
  }

  /** A file that must not be replaced. */
  predicate NotOurs(files: Contents, p: Path, m: Managed) {
    var content := At(files, p);
    content.Some? && (content.value.Undecodable? || !m.owns(Newlines(content.value.text)))
  }

  datatype Existing = Fresh | Owned(text: string) | Foreign

  /** `_read_existing` and the ownership check: anything that cannot be read, is not
    * text, or is not this project's counts as foreign. */
  method ReadExisting(disk: Disk, p: Path, owns: string -> bool) returns (r: Existing)
    modifies disk`faults
    ensures r.Fresh? ==> p !in disk.files
    ensures r.Owned? ==> exists text :: At(disk.files, p) == Some(Utf8(text)) && r.text == Newlines(text) && owns(r.text)
    ensures old(disk.faults) == [] ==> disk.faults == []
    ensures old(disk.faults) == [] ==>
      (r.Foreign? <==> p in disk.files && (disk.files[p].Undecodable? || !owns(Newlines(disk.files[p].text))))
  {
    var read := disk.ReadBytes(p);
    match read {
      case Missing => r := Fresh;
      case Unreadable => r := Foreign;
      case Got(content) =>
        if content.Undecodable? || !owns(Newlines(content.text)) {
          r := Foreign;
        } else {
          r := Owned(Newlines(content.text));
        }
    }
  }

  /** How an installation ends; `Broke` is the exception of rendering, which nobody
    * catches. */
  datatype Placing = Wrote | Failed | Broke

  method Install(disk: Disk, shim: Managed) returns (r: Placing)
    modifies disk
    ensures r.Wrote? ==> shim.source.Some? && disk.files == old(disk.files)[Shim := Utf8(shim.source.value)]
    ensures !r.Wrote? ==> disk.files == old(disk.files)
    ensures r.Broke? ==> shim.source.None?
    ensures old(disk.faults) == [] ==>
      disk.faults == []
      && r == if NotOurs(old(disk.files), Shim, shim) then Failed else if shim.source.None? then Broke else Wrote
  {
    var existing := ReadExisting(disk, Shim, shim.owns);
    if existing.Foreign? { return Failed; }
    if shim.source.None? { return Broke; }
    var ok := disk.WriteAtomic(Shim, Utf8(shim.source.value));
    r := if ok then Wrote else Failed;
  }

  datatype Uninstalled = Removed | NothingThere | RefusedToRemove

  /** Removes what `Install` wrote, and nothing that is not this project's. */
  method Uninstall(disk: Disk, owns: string -> bool) returns (r: Uninstalled)
    modifies disk
    ensures disk.files == if r.Removed? then old(disk.files) - {Shim} else old(disk.files)
    ensures r.Removed? ==> exists text :: At(old(disk.files), Shim) == Some(Utf8(text)) && owns(Newlines(text))
    ensures r.NothingThere? ==> Shim !in old(disk.files)
  {
    var existing := ReadExisting(disk, Shim, owns);
    if existing.Fresh? { return NothingThere; }
    if existing.Foreign? { return RefusedToRemove; }
    var ok := disk.Unlink(Shim);
    r := if ok then Removed else RefusedToRemove;
  }

  const CONTROL := {ControlInit, ControlManifest}

  /** What undoing leaves of a file: what was there, read as text and written back. */
  function Undone(content: Option<Content>): Option<Content> {
    match content
    case Some(Utf8(text)) => Some(Utf8(Newlines(text)))
    case _ => content
  }

  method Undo(disk: Disk, p: Path, previous: Existing) returns (ok: bool)
    requires !previous.Foreign?
    modifies disk
    ensures OnlyChanges(old(disk.files), disk.files, {p})
    ensures ok ==> At(disk.files, p) == if previous.Fresh? then None else Some(Utf8(previous.text))
  {
    match previous {
      case Fresh => ok := disk.Unlink(p);
      case Owned(text) => ok := disk.WriteAtomic(p, Utf8(text));
    }
  }

  /** How the upgrade of the control files ends where no file operation fails. */
  function ControlPlacing(files: Contents, init: Managed, manifest: Managed, hasExecutable: bool): Placing {
    if NotOurs(files, ControlInit, init) || NotOurs(files, ControlManifest, manifest) || !hasExecutable then Failed
    else if init.source.None? || manifest.source.None? then Broke
    else Wrote
  }

  /** The upgrade of the two control files: both new, or - barring failures while undoing
    * - both as they were, read as text. */
  method InstallControl(disk: Disk, init: Managed, manifest: Managed, hasExecutable: bool)
    returns (r: Placing, ghost undone: bool)
    modifies disk
    ensures OnlyChanges(old(disk.files), disk.files, CONTROL)
    ensures r.Wrote? ==>
      && init.source.Some? && manifest.source.Some?
      && disk.files == old(disk.files)[ControlInit := Utf8(init.source.value)][ControlManifest := Utf8(manifest.source.value)]
    ensures r.Failed? && undone ==>
      disk.files == old(disk.files)
      || forall p <- CONTROL :: At(disk.files, p) == Undone(At(old(disk.files), p))
    ensures r.Broke? ==> disk.files == old(disk.files) && (init.source.None? || manifest.source.None?)
    ensures old(disk.faults) == [] ==>
      && disk.faults == [] && r == ControlPlacing(old(disk.files), init, manifest, hasExecutable)
      && (!r.Wrote? ==> disk.files == old(disk.files))
  {
    ghost var was := disk.files;
    undone := true;
    var oldInit := ReadExisting(disk, ControlInit, init.owns);
    if oldInit.Foreign? { return Failed, true; }
    var oldManifest := ReadExisting(disk, ControlManifest, manifest.owns);
    if oldManifest.Foreign? || !hasExecutable { return Failed, true; }
    if init.source.None? || manifest.source.None? { return Broke, true; }
    var ok := disk.WriteAtomic(ControlInit, Utf8(init.source.value));
    if ok {
      ok := disk.WriteAtomic(ControlManifest, Utf8(manifest.source.value));
    }
    r := if ok then Wrote else Failed;
    if !ok {
      var first := Undo(disk, ControlInit, oldInit);
      var second := Undo(disk, ControlManifest, oldManifest);
      undone := first && second;
    }
  }

  /** Undone exactly if no carriage return was there. */
  lemma UndoneIff(content: Option<Content>)
    ensures Undone(content) == content <==>
      (content.Some? && content.value.Utf8? ==> '\r' !in content.value.text)
  {
    if content.Some? && content.value.Utf8? {
      NewlinesKeepIff(content.value.text);
    }
  }

  // ---------------------------------------------------------------- the configuration file

  /** What YAML makes of a text, what JSON makes of a document - nothing, where it
    * raises - and the line edit. */
  datatype Yaml = Yaml(load: string -> Parsed, encode: Value -> Option<Value>, plan: (string, Value) -> Option<string>)

  const EMPTY := Object(map[])

  datatype ConfigRead = Document(doc: Value, text: string) | Unusable | Raising

  /** What `_load_yaml` makes of the file: it reports YAML's own errors and raises all
    * others, those of decoding among them. */
  function LoadOf(content: Option<Content>, yaml: Yaml): ConfigRead {
    match content
    case None => Unusable
    case Some(Undecodable(_)) => Raising
    case Some(Utf8(t)) =>
      match yaml.load(Newlines(t))
      case Loaded(doc) => Document(doc, Newlines(t))
      case NotYaml => Unusable
      case Raises => Raising
  }

  method LoadYaml(disk: Disk, yaml: Yaml) returns (r: ConfigRead)
    modifies disk`faults
    ensures r == LoadOf(At(disk.files, ConfigFile), yaml) || r.Unusable?
    ensures old(disk.faults) == [] ==> disk.faults == [] && r == LoadOf(At(disk.files, ConfigFile), yaml)
  {
    var read := disk.ReadBytes(ConfigFile);
    if !read.Got? { return Unusable; }
    if read.content.Undecodable? { return Raising; }
    var text := Newlines(read.content.text);
    match yaml.load(text) {
      case Loaded(doc) => r := Document(doc, text);
      case NotYaml => r := Unusable;
      case Raises => r := Raising;
    }
  }

  /** How an edit ends; an exception comes before anything is written or after. */
  datatype Outcome = Done | Refused | RaisedBefore | RaisedAfter

  /** An edit of the configuration where nothing fails: the file afterwards, and the
    * text saved beside it if any was. */
  datatype Edit = Edit(outcome: Outcome, config: Option<Content>, saved: Option<string>)

  function Untouched(outcome: Outcome, content: Option<Content>): Edit {
    Edit(outcome, content, None)
  }

  function FilesAfter(before: Contents, backup: Path, e: Edit): Contents {
    var files := if e.saved.Some? then before[backup := Utf8(e.saved.value)] else before;
    if e.config.Some? then files[ConfigFile := e.config.value] else files - {ConfigFile}
  }

  datatype Verdict = Passes | Fails | Throws

  /** The check after the edit. The original is encoded whatever became of the edit. */
  function CheckEdit(yaml: Yaml, from: Value, edited: string): Verdict {
    match yaml.load(Newlines(edited))
    case Raises => Throws
    case NotYaml => if yaml.encode(from).None? then Throws else Fails
    case Loaded(now) =>
      if yaml.encode(from).None? || yaml.encode(now).None? then Throws
      else if NamesControl(now) && Matches(yaml.encode(now).value, yaml.encode(from).value) then Passes
      else Fails
  }

  predicate Matches(observed: Value, expected: Value) {
    Trimmed(observed) == expected
  }

  /** `enable_control_plugin`, where no file operation fails. */
  function Enable(content: Option<Content>, yaml: Yaml): Edit {
    match LoadOf(content, yaml)
    case Raising => Untouched(RaisedBefore, content)
    case Unusable => if content.Some? then Untouched(Refused, content) else EnableFrom(content, yaml, EMPTY, "")
    case Document(doc, text) =>
      if NamesControl(doc) then Untouched(Done, content) else EnableFrom(content, yaml, doc, text)
  }

  function EnableFrom(content: Option<Content>, yaml: Yaml, from: Value, text: string): Edit {
    match yaml.plan(text, from)
    case None => Untouched(Refused, content)
    case Some(edited) =>
      var saved := if content.Some? then Some(text) else None;
      match CheckEdit(yaml, from, edited)
      case Passes => Edit(Done, Some(Utf8(edited)), saved)
      case Fails => Edit(Refused, Some(Utf8(text)), saved)
      case Throws => Edit(RaisedAfter, Some(Utf8(edited)), saved)
  }

  /** The document and the text an edit starts from. */
  ghost predicate StartsFrom(files: Contents, yaml: Yaml, from: Value, text: string) {
    if ConfigFile in files then LoadOf(At(files, ConfigFile), yaml) == Document(from, text)
    else from == EMPTY && text == ""
  }

  ghost predicate Reads(files: Contents, yaml: Yaml, doc: Value) {
    exists text :: LoadOf(At(files, ConfigFile), yaml) == Document(doc, text)
  }

  /** The text an edit starts from: the file's, or nothing if there is no file. */
  ghost predicate Decodes(files: Contents, text: string) {
    match At(files, ConfigFile)
    case None => text == ""
    case Some(Utf8(t)) => text == Newlines(t)
    case Some(Undecodable(_)) => false
  }

  /** What `ConfigFile` may be after an edit that was refused, unless putting it back
    * failed too: what it was, or the text the edit started from. */
  ghost predicate PutBack(before: Contents, after: Contents) {
    || At(after, ConfigFile) == At(before, ConfigFile)
    || exists text :: Decodes(before, text) && At(after, ConfigFile) == Some(Utf8(text))
  }

  /** The edited file is on disk, and the check raises on it. */
  ghost predicate LeftBehind(before: Contents, after: Contents, yaml: Yaml) {
    exists from, text :: StartsFrom(before, yaml, from, text) && yaml.plan(text, from).Some?
      && At(after, ConfigFile) == Some(Utf8(yaml.plan(text, from).value))
      && CheckEdit(yaml, from, yaml.plan(text, from).value).Throws?
  }

  /** The comparison as the code makes it, once the file has been read again. */
  method Verify(disk: Disk, yaml: Yaml, from: Value, ghost edited: string) returns (r: Verdict, ghost now: Value)
    requires At(disk.files, ConfigFile) == Some(Utf8(edited))
    modifies disk`faults
    ensures r.Throws? ==> CheckEdit(yaml, from, edited).Throws?
    ensures yaml.encode(from).None? ==> r.Throws?
    ensures r.Passes? ==> CheckEdit(yaml, from, edited).Passes? && yaml.load(Newlines(edited)) == Loaded(now)
    ensures old(disk.faults) == [] ==> disk.faults == [] && r == CheckEdit(yaml, from, edited)
  {
    now := from;
    var verified := PluginEnabled(disk, yaml);
    if verified.None? { return Throws, now; }
    var again := LoadYaml(disk, yaml);
    if again.Raising? { return Throws, now; }
    var expected := yaml.encode(from);
    if expected.None? { return Throws, now; }
    if again.Unusable? { return Fails, now; }
    now := again.doc;
    var observed := yaml.encode(again.doc);
    if observed.None? { return Throws, now; }
    var same := Compare(expected.value, observed.value);
    r := if verified == Some(true) && same then Passes else Fails;
  }

  /** `control_plugin_enabled`: a file that cannot be loaded counts as not enabled. */
  method PluginEnabled(disk: Disk, yaml: Yaml) returns (r: Option<bool>)
    modifies disk`faults
    ensures
      var read := LoadOf(At(disk.files, ConfigFile), yaml);
      && (r.None? ==> read.Raising?)
      && (r == Some(true) ==> read.Document? && NamesControl(read.doc))
      && (old(disk.faults) == [] ==>
            disk.faults == [] && r == if read.Raising? then None else Some(read.Document? && NamesControl(read.doc)))
  {
    var loaded := LoadYaml(disk, yaml);
    match loaded {
      case Document(doc, _) => r := Some(NamesControl(doc));
      case Unusable => r := Some(false);
      case Raising => r := None;
    }
  }

  /** The edit of the user's configuration, checked by reading it again. Whatever fails,
    * it ends with the plugin enabled in what there was or in what there was and the
    * name; or with the file as it was, or as its text was, unless putting it back fails;
    * or it raises: before anything is written, because the file cannot be loaded, or
    * after, and then the edited file stays. */
  method EnableControlPlugin(disk: Disk, yaml: Yaml, partial: Option<Content>)
    returns (r: Outcome, ghost from: Value, ghost now: Value, ghost restored: bool)
    modifies disk
    ensures OnlyChanges(old(disk.files), disk.files, {ConfigFile, Backup})
    ensures r.Done? ==> Reads(disk.files, yaml, now) && NamesControl(now)
    ensures r.Done? && disk.files != old(disk.files) ==>
      && (exists text :: StartsFrom(old(disk.files), yaml, from, text))
      && yaml.encode(from).Some? && yaml.encode(now).Some?
      && Trimmed(yaml.encode(now).value) == yaml.encode(from).value
    ensures r.Refused? && restored ==> PutBack(old(disk.files), disk.files)
    ensures r.RaisedBefore? ==>
      disk.files == old(disk.files) && LoadOf(At(disk.files, ConfigFile), yaml).Raising?
    ensures r.RaisedAfter? ==> LeftBehind(old(disk.files), disk.files, yaml)
    ensures (r.Done? || r.Refused?) && yaml.encode(from).None? ==>
      At(disk.files, ConfigFile) == At(old(disk.files), ConfigFile)
    ensures old(disk.faults) == [] ==>
      var e := Enable(At(old(disk.files), ConfigFile), yaml);
      disk.faults == [] && r == e.outcome && disk.files == FilesAfter(old(disk.files), Backup, e)
  {
    ghost var was := disk.files;
    from, now, restored := EMPTY, EMPTY, true;
    var loaded := LoadYaml(disk, yaml);
    if loaded.Raising? { return RaisedBefore, from, now, true; }
    if loaded.Unusable? && ConfigFile in disk.files { return Refused, from, now, true; }
    var document, text := EMPTY, "";
    if loaded.Document? {
      document, text := loaded.doc, loaded.text;
    }
    from := document;
    assert StartsFrom(was, yaml, from, text) && Decodes(was, text);

    var already := PluginEnabled(disk, yaml);
    if already == Some(true) {
      now := LoadOf(At(was, ConfigFile), yaml).doc;
      return Done, from, now, true;
    }
    if already.None? { return RaisedBefore, from, now, true; }
    var edited := yaml.plan(text, document);
    if edited.None? { return Refused, from, now, true; }

    var ok := WriteBoth(disk, Backup, text, edited.value, partial);
    if !ok { return Refused, from, now, true; }

    var verdict;
    verdict, now := Verify(disk, yaml, document, edited.value);
    match verdict {
      case Throws => r := RaisedAfter;
      case Passes =>
        assert LoadOf(At(disk.files, ConfigFile), yaml) == Document(now, Newlines(edited.value));
        r := Done;
      case Fails =>
        restored := disk.WriteAtomic(ConfigFile, Utf8(text));
        r := Refused;
    }
  }

  /** Putting back restores the bytes exactly if there was a file and no carriage return
    * in it; where there was none it leaves an empty one. */
  lemma PutBackIff(before: Contents, text: string)
    requires Decodes(before, text)
    ensures Some(Utf8(text)) == At(before, ConfigFile) <==>
      ConfigFile in before && '\r' !in before[ConfigFile].text
  {
    if ConfigFile in before {
      NewlinesKeepIff(before[ConfigFile].text);
    }
  }

  /** What the alias writer and the candidate writer make of a document: nothing to do,
    * a shape they will not touch, an exception, or a new document, written out whole. */
  datatype Change = AsItIs | Refuses | Breaks | Put(doc: Value, rendered: string)

  /** A writer: its change, and its check of what it has written. */
  datatype Writer = Writer(change: Value -> Change, check: (Value, string) -> Verdict)

  /** The draft, rendered; rendering may raise. */
  function Drafted(draft: Draft, dump: Value -> Option<string>): Change {
    match draft
    case Same => AsItIs
    case Unfit => Refuses
    case New(doc) => match dump(doc) case None => Breaks case Some(text) => Put(doc, text)
  }

  /** The alias writer asks for the very document to be read again. */
  function AliasWriter(yaml: Yaml, dump: Value -> Option<string>, baseUrl: string): Writer {
    Writer(
      from => Drafted(AddAlias(from, baseUrl), dump),
      (doc, text) => match yaml.load(text)
                     case Raises => Throws
                     case NotYaml => Fails
                     case Loaded(now) => if now == doc then Passes else Fails)
  }

  /** The candidate writer asks the loader of the router's configuration. */
  function CandidateWriter(dump: Value -> Option<string>, candidates: Value, configOk: string -> Verdict): Writer {
    Writer(from => Drafted(SetCandidates(from, candidates), dump), (doc, text) => configOk(text))
  }

  /** What putting back leaves here: the text, or no file if there was no text. */
  function PutBackOrRemoved(text: string): Option<Content> {
    if text == "" then None else Some(Utf8(text))
  }

  /** `enable_model_alias` and `_write_candidate_config`, where no file operation fails. */
  function Rewritten(content: Option<Content>, yaml: Yaml, w: Writer): Edit {
    match LoadOf(content, yaml)
    case Raising => Untouched(RaisedBefore, content)
    case Unusable => if content.Some? then Untouched(Refused, content) else RewrittenFrom(content, w, EMPTY, "")
    case Document(doc, text) => RewrittenFrom(content, w, doc, text)
  }

  function RewrittenFrom(content: Option<Content>, w: Writer, from: Value, text: string): Edit {
    match w.change(from)
    case AsItIs => Untouched(Done, content)
    case Refuses => Untouched(Refused, content)
    case Breaks => Untouched(RaisedBefore, content)
    case Put(doc, rendered) => Written(content, w, doc, rendered, text)
  }

  function Written(content: Option<Content>, w: Writer, doc: Value, rendered: string, text: string): Edit {
    var saved := if content.Some? then Some(text) else None;
    match w.check(doc, Newlines(rendered))
    case Passes => Edit(Done, Some(Utf8(rendered)), saved)
    case Fails => Edit(Refused, PutBackOrRemoved(text), saved)
    case Throws => Edit(RaisedAfter, Some(Utf8(rendered)), saved)
  }

  /** The document was fine as it was, or the new one is there and checked. */
  ghost predicate Changed(before: Contents, after: Contents, yaml: Yaml, w: Writer) {
    exists from, text :: StartsFrom(before, yaml, from, text) &&
      match w.change(from)
      case AsItIs => after == before
      case Put(doc, rendered) => At(after, ConfigFile) == Some(Utf8(rendered)) && w.check(doc, Newlines(rendered)).Passes?
      case _ => false
  }

  /** The new document is there, and its check raises. */
  ghost predicate Unchecked(before: Contents, after: Contents, yaml: Yaml, w: Writer) {
    exists from, text :: StartsFrom(before, yaml, from, text) &&
      match w.change(from)
      case Put(doc, rendered) => At(after, ConfigFile) == Some(Utf8(rendered)) && w.check(doc, Newlines(rendered)).Throws?
      case _ => false
  }

  /** The file cannot be loaded, or the change of what is in it raises. */
  ghost predicate CannotStart(files: Contents, yaml: Yaml, w: Writer) {
    || LoadOf(At(files, ConfigFile), yaml).Raising?
    || exists from, text :: StartsFrom(files, yaml, from, text) && w.change(from).Breaks?
  }

  /** The same steps with a backup file and a check of their own. */
  method Rewrite(disk: Disk, yaml: Yaml, backup: Path, w: Writer, partial: Option<Content>)
    returns (r: Outcome, ghost restored: bool)
    requires backup != ConfigFile
    modifies disk
    ensures OnlyChanges(old(disk.files), disk.files, {ConfigFile, backup})
    ensures r.Done? ==> Changed(old(disk.files), disk.files, yaml, w)
    ensures r.Refused? && restored ==>
      || At(disk.files, ConfigFile) == At(old(disk.files), ConfigFile)
      || exists text :: Decodes(old(disk.files), text) && At(disk.files, ConfigFile) == PutBackOrRemoved(text)
    ensures r.RaisedBefore? ==> disk.files == old(disk.files) && CannotStart(disk.files, yaml, w)
    ensures r.RaisedAfter? ==> Unchecked(old(disk.files), disk.files, yaml, w)
    ensures old(disk.faults) == [] ==>
      var e := Rewritten(At(old(disk.files), ConfigFile), yaml, w);
      disk.faults == [] && r == e.outcome && disk.files == FilesAfter(old(disk.files), backup, e)
  {
    ghost var was := disk.files;
    restored := true;
    var loaded := LoadYaml(disk, yaml);
    if loaded.Raising? { return RaisedBefore, true; }
    if loaded.Unusable? && ConfigFile in disk.files { return Refused, true; }
    var from, text := EMPTY, "";
    if loaded.Document? {
      from, text := loaded.doc, loaded.text;
    }
    assert StartsFrom(was, yaml, from, text) && Decodes(was, text);
    match w.change(from) {
      case AsItIs => return Done, true;
      case Refuses => return Refused, true;
      case Breaks => return RaisedBefore, true;
      case Put(doc, rendered) =>
        r, restored := PutChange(disk, backup, w, doc, rendered, text, partial);
    }
  }

  /** The new document written and checked, and if it does not pass, the text put back. */
  method PutChange(
    disk: Disk, backup: Path, w: Writer, doc: Value, rendered: string, text: string, partial: Option<Content>)
    returns (r: Outcome, ghost restored: bool)
    requires backup != ConfigFile
    modifies disk
    ensures OnlyChanges(old(disk.files), disk.files, {ConfigFile, backup}) && !r.RaisedBefore?
    ensures r.Done? || r.RaisedAfter? ==>
      At(disk.files, ConfigFile) == Some(Utf8(rendered))
      && w.check(doc, Newlines(rendered)) == if r.Done? then Passes else Throws
    ensures r.Refused? && restored ==> At(disk.files, ConfigFile) == PutBackOrRemoved(text)
    ensures old(disk.faults) == [] ==>
      var e := Written(At(old(disk.files), ConfigFile), w, doc, rendered, text);
      disk.faults == [] && r == e.outcome && disk.files == FilesAfter(old(disk.files), backup, e)
  {
    restored := true;
    var written := WriteBoth(disk, backup, text, rendered, partial);
    var verdict := Fails;
    if written {
      verdict := CheckWritten(disk, w, doc, rendered);
    }
    match verdict {
      case Throws => r := RaisedAfter;
      case Passes => r := Done;
      case Fails =>
        restored := PutTextBack(disk, text);
        r := Refused;
    }
  }

  /** The candidates are in the file, in place of a fixed upstream and of nothing else,
    * and the loader takes it. */
  ghost predicate CandidatesWritten(
    before: Contents, after: Contents, yaml: Yaml, dump: Value -> Option<string>, candidates: Value,
    configOk: string -> Verdict)
  {
    exists from, text, now, rendered ::
      && StartsFrom(before, yaml, from, text)
      && HasCandidates(now, candidates) && OnlyCandidatesDiffer(from, now)
      && dump(now) == Some(rendered) && At(after, ConfigFile) == Some(Utf8(rendered))
      && configOk(Newlines(rendered)).Passes?
  }

  /** `_write_candidate_config`. */
  method WriteCandidates(
    disk: Disk, yaml: Yaml, dump: Value -> Option<string>, candidates: Value, configOk: string -> Verdict,
    partial: Option<Content>)
    returns (r: Outcome, ghost restored: bool)
    modifies disk
    ensures OnlyChanges(old(disk.files), disk.files, {ConfigFile, ConfigureBackup})
    ensures r.Done? ==> CandidatesWritten(old(disk.files), disk.files, yaml, dump, candidates, configOk)
    ensures r.Refused? && restored ==>
      || At(disk.files, ConfigFile) == At(old(disk.files), ConfigFile)
      || exists text :: Decodes(old(disk.files), text) && At(disk.files, ConfigFile) == PutBackOrRemoved(text)
    ensures r.RaisedBefore? ==> disk.files == old(disk.files)
    ensures old(disk.faults) == [] ==>
      var e := Rewritten(At(old(disk.files), ConfigFile), yaml, CandidateWriter(dump, candidates, configOk));
      disk.faults == [] && r == e.outcome && disk.files == FilesAfter(old(disk.files), ConfigureBackup, e)
  {
    ghost var was := disk.files;
    var w := CandidateWriter(dump, candidates, configOk);
    r, restored := Rewrite(disk, yaml, ConfigureBackup, w, partial);
    if r.Done? {
      CandidatesAreWritten(was, disk.files, yaml, dump, candidates, configOk);
    }
  }

  lemma CandidatesAreWritten(
    before: Contents, after: Contents, yaml: Yaml, dump: Value -> Option<string>, candidates: Value,
    configOk: string -> Verdict)
    requires Changed(before, after, yaml, CandidateWriter(dump, candidates, configOk))
    ensures CandidatesWritten(before, after, yaml, dump, candidates, configOk)
  {
    var w := CandidateWriter(dump, candidates, configOk);
    var from, text :| StartsFrom(before, yaml, from, text) &&
      match w.change(from)
      case AsItIs => after == before
      case Put(doc, rendered) => At(after, ConfigFile) == Some(Utf8(rendered)) && w.check(doc, Newlines(rendered)).Passes?
      case _ => false;
    var now := SetCandidates(from, candidates).doc;
    SetCandidatesIs(from, candidates);
    assert dump(now).Some?;
  }

  /** The backup, if there is something to save, and then the file. */
  method WriteBoth(disk: Disk, backup: Path, text: string, edited: string, partial: Option<Content>) returns (ok: bool)
    requires backup != ConfigFile
    modifies disk
    ensures OnlyChanges(old(disk.files), disk.files, {ConfigFile, backup})
    ensures At(disk.files, ConfigFile) == if ok then Some(Utf8(edited)) else At(old(disk.files), ConfigFile)
    ensures old(disk.faults) == [] ==>
      ok && disk.faults == []
      && disk.files == (if ConfigFile in old(disk.files) then old(disk.files)[backup := Utf8(text)] else old(disk.files))
                       [ConfigFile := Utf8(edited)]
  {
    ok := true;
    if ConfigFile in disk.files {
      ok := disk.WriteInPlace(backup, Utf8(text), partial);
    }
    if ok {
      ok := disk.WriteAtomic(ConfigFile, Utf8(edited));
    }
  }

  method CheckWritten(disk: Disk, w: Writer, doc: Value, rendered: string) returns (r: Verdict)
    requires At(disk.files, ConfigFile) == Some(Utf8(rendered))
    modifies disk`faults
    ensures r == w.check(doc, Newlines(rendered)) || r.Fails?
    ensures old(disk.faults) == [] ==> disk.faults == [] && r == w.check(doc, Newlines(rendered))
  {
    var read := disk.ReadBytes(ConfigFile);
    r := if read.Got? then w.check(doc, Newlines(rendered)) else Fails;
  }

  method PutTextBack(disk: Disk, text: string) returns (ok: bool)
    modifies disk
    ensures OnlyChanges(old(disk.files), disk.files, {ConfigFile})
    ensures ok ==> At(disk.files, ConfigFile) == PutBackOrRemoved(text)
    ensures old(disk.faults) == [] ==>
      ok && disk.faults == []
      && disk.files == if text == "" then old(disk.files) - {ConfigFile} else old(disk.files)[ConfigFile := Utf8(text)]
  {
    if text != "" {
      ok := disk.WriteAtomic(ConfigFile, Utf8(text));
    } else {
      ok := disk.Unlink(ConfigFile);
    }
  }

  /** This way of putting back loses an empty file: it restores what was there exactly
    * if there was nothing, or text without a carriage return and with something in it. */
  lemma PutBackOrRemovedIff(before: Contents, text: string)
    requires Decodes(before, text)
    ensures PutBackOrRemoved(text) == At(before, ConfigFile) <==>
      ConfigFile in before ==> before[ConfigFile].text != "" && '\r' !in before[ConfigFile].text
  {
    if ConfigFile in before {
      NewlinesKeepIff(before[ConfigFile].text);
    }
  }

  // ---------------------------------------------------------------- snapshots

  const MANAGED := [Token, AdminToken, Shim, ControlInit, ControlManifest, ConfigFile, Backup, AliasBackup]

  type Snapshots = map<Path, Option<Content>>

  method TakeSnapshots(disk: Disk) returns (r: Option<Snapshots>)
    modifies disk`faults
    ensures r.Some? ==> r.value.Keys == (set p <- MANAGED) && forall p <- MANAGED :: r.value[p] == At(disk.files, p)
    ensures old(disk.faults) == [] ==> r.Some? && disk.faults == []
  {
    var snapshots: Snapshots := map[];
    for i := 0 to |MANAGED|
      invariant snapshots.Keys == set p <- MANAGED[..i]
      invariant forall p <- MANAGED[..i] :: snapshots[p] == At(disk.files, p)
      invariant old(disk.faults) == [] ==> disk.faults == []
    {
      var p := MANAGED[i];
      assert MANAGED[..i + 1] == MANAGED[..i] + [p];
      var read := disk.ReadBytes(p);
      match read {
        case Unreadable => return None;
        case Missing => snapshots := snapshots[p := None];
        case Got(content) => snapshots := snapshots[p := Some(content)];
      }
    }
    assert MANAGED[..|MANAGED|] == MANAGED;
    r := Some(snapshots);
  }

  method RestoreOne(disk: Disk, p: Path, previous: Option<Content>) returns (ok: bool)
    modifies disk
    ensures OnlyChanges(old(disk.files), disk.files, {p})
    ensures ok ==> At(disk.files, p) == previous
    ensures old(disk.faults) == [] ==> ok && disk.faults == []
  {
    if previous.None? {
      ok := disk.Unlink(p);
      return;
    }
    var read := disk.ReadBytes(p);
    if read.Unreadable? { return false; }
    if read == Got(previous.value) { return true; }
    ok := disk.WriteAtomic(p, previous.value);
  }

  /** Every managed path that is not reported is as it was when the snapshot was taken,
    * and no other path is touched. */
  method Rollback(disk: Disk, snapshots: Snapshots) returns (failures: seq<Path>)
    requires snapshots.Keys == set p <- MANAGED
    modifies disk
    ensures OnlyChanges(old(disk.files), disk.files, snapshots.Keys)
    ensures forall p <- MANAGED :: p in failures || At(disk.files, p) == snapshots[p]
    ensures old(disk.faults) == [] ==> failures == [] && disk.faults == []
  {
    failures := [];
    for i := 0 to |MANAGED|
      invariant OnlyChanges(old(disk.files), disk.files, set p <- MANAGED[..i])
      invariant forall p <- MANAGED[..i] :: p in failures || At(disk.files, p) == snapshots[p]
      invariant old(disk.faults) == [] ==> failures == [] && disk.faults == []
    {
      var p := MANAGED[i];
      assert MANAGED[..i + 1] == MANAGED[..i] + [p];
      var ok := RestoreOne(disk, p, snapshots[p]);
      if !ok {
        failures := failures + [p];
      }
    }
    assert MANAGED[..|MANAGED|] == MANAGED;
  }

  // ---------------------------------------------------------------- the command

  /** `secure_write`: the old file goes first, so that the new one is created anew. */
  method SecureWrite(disk: Disk, p: Path, content: Content, partial: Option<Content>) returns (ok: bool)
    modifies disk
    ensures OnlyChanges(old(disk.files), disk.files, {p})
    ensures ok ==> At(disk.files, p) == Some(content)
    ensures old(disk.faults) == [] ==> ok && disk.faults == []
  {
    ok := disk.Unlink(p);
    if ok {
      ok := disk.WriteInPlace(p, content, partial);
    }
  }

  /** A token that is not there is minted. One that cannot be read or is damaged is an
    * error, or is minted anew. */
  method EnsureToken(disk: Disk, p: Path, token: Content, intact: Content -> bool, replace: bool, partial: Option<Content>)
    returns (ok: bool)
    modifies disk
    ensures OnlyChanges(old(disk.files), disk.files, {p})
    ensures ok ==>
      || At(disk.files, p) == Some(token)
      || (disk.files == old(disk.files) && p in disk.files && intact(disk.files[p]))
    ensures p in old(disk.files) && intact(old(disk.files)[p]) && !replace ==> disk.files == old(disk.files)
    ensures old(disk.faults) == [] ==>
      var content := At(old(disk.files), p);
      && disk.faults == [] && ok == (content.None? || intact(content.value) || replace)
      && At(disk.files, p) == if content.Some? && (intact(content.value) || !replace) then content else Some(token)
  {
    var read := disk.ReadBytes(p);
    if read.Got? && intact(read.content) { return true; }
    if !read.Missing? && !replace { return false; }
    ok := SecureWrite(disk, p, token, partial);
  }

  /** Everything the command is given or finds out that is not in the managed files;
    * `given` says that the router's own configuration is not read from the Hermes file. */
  datatype Inputs = Inputs(
    given: bool,
    configOk: Value -> Verdict,
    yaml: Yaml,
    token: Content,
    adminToken: Content,
    intact: Content -> bool,
    permissionsOk: bool,
    adminPermissionsOk: bool,
    shim: Managed,
    init: Managed,
    manifest: Managed,
    hasExecutable: bool,
    dump: Value -> Option<string>,
    baseUrl: string,
    partial: Option<Content>)

  /** `Escaped` is an exception that nobody catches. */
  datatype Result = Unprepared | Installed | RolledBack(unrestored: seq<Path>) | Escaped

  function Alias(i: Inputs): Writer {
    AliasWriter(i.yaml, i.dump, i.baseUrl)
  }

  /** Rendering a shim raises where it is come to, if no file operation fails. */
  predicate RenderingBreaks(files: Contents, i: Inputs) {
    || (!NotOurs(files, Shim, i.shim) && i.shim.source.None?)
    || ControlPlacing(files, i.init, i.manifest, i.hasExecutable).Broke?
  }

  predicate Unrendered(i: Inputs) {
    i.shim.source.None? || i.init.source.None? || i.manifest.source.None?
  }

  /** The tokens can be had and are nobody else's: a gateway token that is there is intact - a
    * damaged one is not replaced - and both permission checks pass. */
  ghost predicate TokensFit(before: Contents, i: Inputs) {
    (Token in before ==> i.intact(before[Token])) && i.permissionsOk && i.adminPermissionsOk
  }

  /** A gateway token that was there is there still, and so is an admin token that was intact;
    * otherwise there are new ones. */
  ghost predicate TokensKept(before: Contents, after: Contents, i: Inputs) {
    && At(after, Token) == (if Token in before then At(before, Token) else Some(i.token))
    && At(after, AdminToken) ==
         if AdminToken in before && i.intact(before[AdminToken]) then At(before, AdminToken) else Some(i.adminToken)
  }

  /** The token was intact and is the same. */
  ghost predicate IntactStays(before: Contents, after: Contents, i: Inputs) {
    Token in before && i.intact(before[Token]) ==> At(after, Token) == At(before, Token)
  }

  /** The tokens, one after the other whatever fails. */
  method InstallTokens(disk: Disk, i: Inputs) returns (failures: nat)
    modifies disk
    ensures OnlyChanges(old(disk.files), disk.files, {Token, AdminToken})
    ensures failures == 0 ==> Token in disk.files && AdminToken in disk.files
    ensures IntactStays(old(disk.files), disk.files, i)
    ensures old(disk.faults) == [] ==>
      disk.faults == [] && TokensKept(old(disk.files), disk.files, i) && (failures == 0 <==> TokensFit(old(disk.files), i))
  {
    ghost var was := disk.files;
    failures := 0;
    var token := EnsureToken(disk, Token, i.token, i.intact, false, i.partial);
    if !token || !i.permissionsOk { failures := failures + 1; }
    ghost var first := disk.files;
    assert At(first, AdminToken) == At(was, AdminToken);
    var adminToken := EnsureToken(disk, AdminToken, i.adminToken, i.intact, true, i.partial);
    if !adminToken || !i.adminPermissionsOk { failures := failures + 1; }
    assert At(disk.files, Token) == At(first, Token);
  }

  /** Nothing of somebody else's is where the shims go, and there is an executable to name. */
  ghost predicate ShimsFit(before: Contents, i: Inputs) {
    && !NotOurs(before, Shim, i.shim) && !NotOurs(before, ControlInit, i.init)
    && !NotOurs(before, ControlManifest, i.manifest) && i.hasExecutable
  }

  /** The tokens and the shims, one after the other whatever fails; only an exception of
    * rendering ends it. */
  method InstallFiles(disk: Disk, i: Inputs) returns (failures: Option<nat>)
    modifies disk
    ensures OnlyChanges(old(disk.files), disk.files, {Token, AdminToken, Shim, ControlInit, ControlManifest})
    ensures failures == Some(0) ==>
      && Token in disk.files && AdminToken in disk.files
      && Stands(disk.files, Shim, i.shim)
      && Stands(disk.files, ControlInit, i.init) && Stands(disk.files, ControlManifest, i.manifest)
    ensures failures.None? ==> Unrendered(i)
    ensures IntactStays(old(disk.files), disk.files, i)
    ensures old(disk.faults) == [] ==>
      && disk.faults == [] && TokensKept(old(disk.files), disk.files, i)
      && (failures.None? <==> RenderingBreaks(old(disk.files), i))
      && (failures.Some? ==> (failures.value == 0 <==> TokensFit(old(disk.files), i) && ShimsFit(old(disk.files), i)))
  {
    var tokens := InstallTokens(disk, i);
    ghost var before := disk.files;
    OthersStand(old(disk.files), before, i);
    var shim := Install(disk, i.shim);
    if shim.Broke? { return None; }
    ghost var between := disk.files;
    assert At(between, Token) == At(before, Token) && At(between, AdminToken) == At(before, AdminToken);
    var control, _ := InstallControl(disk, i.init, i.manifest, i.hasExecutable);
    assert At(disk.files, Token) == At(between, Token) && At(disk.files, AdminToken) == At(between, AdminToken);
    assert At(disk.files, Shim) == At(between, Shim);
    if control.Broke? { return None; }
    failures := Some(tokens + (if shim.Wrote? then 0 else 1) + (if control.Wrote? then 0 else 1));
  }

  lemma OthersStand(was: Contents, now: Contents, i: Inputs)
    requires OnlyChanges(was, now, {Token, AdminToken})
    ensures NotOurs(was, Shim, i.shim) == NotOurs(now, Shim, i.shim)
    ensures ControlPlacing(was, i.init, i.manifest, i.hasExecutable) == ControlPlacing(now, i.init, i.manifest, i.hasExecutable)
  {
    assert At(now, Shim) == At(was, Shim);
    assert At(now, ControlInit) == At(was, ControlInit) && At(now, ControlManifest) == At(was, ControlManifest);
  }

  /** Whether the router's own configuration can be had, where no read fails. */
  function Prepared(content: Option<Content>, i: Inputs): Verdict {
    if i.given then Passes
    else match LoadOf(content, i.yaml)
      case Raising => Throws
      case Unusable => if content.Some? then Fails else Passes
      case Document(doc, _) => i.configOk(doc)
  }

  /** The command has read what configuration it needs, or stops before it has changed
    * anything. */
  method Prepare(disk: Disk, i: Inputs) returns (r: Verdict)
    modifies disk`faults
    ensures r == Prepared(At(disk.files, ConfigFile), i) || r.Fails?
    ensures old(disk.faults) == [] ==> disk.faults == [] && r == Prepared(At(disk.files, ConfigFile), i)
  {
    if i.given { return Passes; }
    var loaded := LoadYaml(disk, i.yaml);
    match loaded {
      case Raising => r := Throws;
      case Unusable => r := if ConfigFile in disk.files then Fails else Passes;
      case Document(doc, _) => r := i.configOk(doc);
    }
  }

  /** The plugin is listed in the configuration, and the alias is in it. */
  ghost predicate Configured(files: Contents, i: Inputs) {
    exists now :: Reads(files, i.yaml, now) && NamesControl(now) && HasAlias(now, i.baseUrl)
  }

  /** The alias goes into the configuration in which the plugin has been enabled, and
    * leaves it enabled. */
  lemma AliasKeepsPlugin(between: Contents, after: Contents, i: Inputs, doc: Value)
    requires Reads(between, i.yaml, doc) && NamesControl(doc) && Changed(between, after, i.yaml, Alias(i))
    ensures Configured(after, i)
  {
    var from, text :| StartsFrom(between, i.yaml, from, text) &&
      match Alias(i).change(from)
      case AsItIs => after == between
      case Put(put, rendered) => At(after, ConfigFile) == Some(Utf8(rendered)) && Alias(i).check(put, Newlines(rendered)).Passes?
      case _ => false;
    assert from == doc;
    AddAliasIs(from, i.baseUrl);
    match AddAlias(from, i.baseUrl) {
      case Same => assert Reads(after, i.yaml, from);
      case New(put) =>
        var rendered := i.dump(put).value;
        assert LoadOf(At(after, ConfigFile), i.yaml) == Document(put, Newlines(rendered));
        assert Reads(after, i.yaml, put);
    }
  }

  predicate Raised(outcome: Outcome) {
    outcome.RaisedBefore? || outcome.RaisedAfter?
  }

  function Problems(first: Outcome, second: Outcome): nat {
    (if first.Done? then 0 else 1) + if second.Done? then 0 else 1
  }

  /** Both edits where no file operation fails: the files, and the number of problems
    * unless one of the edits raised. */
  function BothEdits(before: Contents, i: Inputs): (Contents, Option<nat>) {
    var first := Enable(At(before, ConfigFile), i.yaml);
    var between := FilesAfter(before, Backup, first);
    if Raised(first.outcome) then (between, None)
    else
      var second := Rewritten(At(between, ConfigFile), i.yaml, Alias(i));
      (FilesAfter(between, AliasBackup, second),
       if Raised(second.outcome) then None else Some(Problems(first.outcome, second.outcome)))
  }

  /** The plugin's edit, and the alias's edit of what that leaves. */
  function PluginEdit(before: Contents, i: Inputs): Edit {
    Enable(At(before, ConfigFile), i.yaml)
  }

  function AliasEdit(before: Contents, i: Inputs): Edit {
    Rewritten(PluginEdit(before, i).config, i.yaml, Alias(i))
  }

  ghost predicate EditsEnd(before: Contents, i: Inputs) {
    PluginEdit(before, i).outcome.Done? && AliasEdit(before, i).outcome.Done?
  }

  ghost predicate PluginRaises(before: Contents, i: Inputs) {
    PluginEdit(before, i).outcome.RaisedBefore? || PluginEdit(before, i).outcome.RaisedAfter?
  }

  ghost predicate AliasRaises(before: Contents, i: Inputs) {
    AliasEdit(before, i).outcome.RaisedBefore? || AliasEdit(before, i).outcome.RaisedAfter?
  }

  lemma {:induction false} BothEditsAre(before: Contents, i: Inputs)
    ensures BothEdits(before, i).1.None? <==> PluginRaises(before, i) || AliasRaises(before, i)
    ensures BothEdits(before, i).1 == Some(0) <==> EditsEnd(before, i)
    ensures At(BothEdits(before, i).0, ConfigFile) ==
      if PluginRaises(before, i) then PluginEdit(before, i).config else AliasEdit(before, i).config
  {
    var first := PluginEdit(before, i);
    assert At(FilesAfter(before, Backup, first), ConfigFile) == first.config;
  }

  /** Why an edit can raise: the file cannot be loaded; or the plugin's line is in it and
    * the check raised; or the writer of the alias raised, before its write or after. */
  ghost predicate CanRaise(before: Contents, after: Contents, i: Inputs) {
    || LoadOf(At(before, ConfigFile), i.yaml).Raising?
    || LeftBehind(before, after, i.yaml)
    || exists between :: OnlyChanges(before, between, {ConfigFile, Backup})
         && (CannotStart(between, i.yaml, Alias(i)) || Unchecked(between, after, i.yaml, Alias(i)))
  }

  /** The edits of the Hermes configuration: nothing if one of them raised. */
  method EditConfig(disk: Disk, i: Inputs) returns (failures: Option<nat>)
    modifies disk
    ensures OnlyChanges(old(disk.files), disk.files, {ConfigFile, Backup, AliasBackup})
    ensures failures.None? ==> CanRaise(old(disk.files), disk.files, i)
    ensures failures == Some(0) ==> Configured(disk.files, i)
    ensures old(disk.faults) == [] ==> disk.faults == [] && (disk.files, failures) == BothEdits(old(disk.files), i)
  {
    var enabled, _, now, _ := EnableControlPlugin(disk, i.yaml, i.partial);
    if Raised(enabled) { return None; }
    ghost var between := disk.files;
    var alias, _ := Rewrite(disk, i.yaml, AliasBackup, Alias(i), i.partial);
    if Raised(alias) { return None; }
    if enabled.Done? && alias.Done? {
      AliasKeepsPlugin(between, disk.files, i, now);
    }
    failures := Some(Problems(enabled, alias));
  }

  lemma AllRestored(before: Contents, after: Contents)
    requires OnlyChanges(before, after, set p <- MANAGED)
    requires forall p <- MANAGED :: At(after, p) == At(before, p)
    ensures after == before
  {
    forall p ensures At(after, p) == At(before, p) {
      if p !in MANAGED {
        assert p !in set q <- MANAGED;
      }
    }
    SameEverywhere(before, after);
  }

  lemma AllManaged(before: Contents, between: Contents, after: Contents)
    requires OnlyChanges(before, between, {Token, AdminToken, Shim, ControlInit, ControlManifest})
    requires OnlyChanges(between, after, {ConfigFile, Backup, AliasBackup})
    ensures OnlyChanges(before, after, set p <- MANAGED)
    ensures At(between, ConfigFile) == At(before, ConfigFile)
    ensures forall p <- [Token, AdminToken, Shim, ControlInit, ControlManifest] :: At(after, p) == At(between, p)
  {
    forall p | p !in set q <- MANAGED ensures At(after, p) == At(before, p) {
      assert p !in MANAGED;
      assert MANAGED[0] == Token && MANAGED[1] == AdminToken && MANAGED[2] == Shim && MANAGED[3] == ControlInit;
      assert MANAGED[4] == ControlManifest && MANAGED[5] == ConfigFile && MANAGED[6] == Backup && MANAGED[7] == AliasBackup;
    }
  }

  /** What setup is for: the tokens are there, the shims are the new ones, the plugin
    * is enabled and the alias is in the configuration. */
  ghost predicate InPlace(files: Contents, i: Inputs) {
    && Token in files && AdminToken in files
    && Stands(files, Shim, i.shim)
    && Stands(files, ControlInit, i.init) && Stands(files, ControlManifest, i.manifest)
    && Configured(files, i)
  }

  /** How the attempt ends where no file operation fails. */
  ghost predicate AttemptEnds(
    before: Contents, installed: Contents, after: Contents, failures: Option<nat>, i: Inputs)
  {
    var broken := RenderingBreaks(before, i);
    && after == (if broken then installed else BothEdits(installed, i).0)
    && (failures.None? <==> broken || BothEdits(installed, i).1.None?)
    && (failures.Some? ==>
         (failures.value == 0 <==> TokensFit(before, i) && ShimsFit(before, i) && BothEdits(installed, i).1 == Some(0)))
    && TokensKept(before, after, i)
  }

  /** Everything between the snapshot and the decision about rolling back; `installed`
    * are the files when the tokens and shims have been seen to. */
  method Attempt(disk: Disk, i: Inputs) returns (failures: Option<nat>, ghost installed: Contents)
    modifies disk
    ensures OnlyChanges(old(disk.files), disk.files, set p <- MANAGED)
    ensures At(installed, ConfigFile) == At(old(disk.files), ConfigFile)
    ensures failures.None? ==> (Unrendered(i) && disk.files == installed) || CanRaise(installed, disk.files, i)
    ensures InPlace(disk.files, i) || failures != Some(0)
    ensures IntactStays(old(disk.files), disk.files, i)
    ensures (AttemptEnds(old(disk.files), installed, disk.files, failures, i) && disk.faults == []) || old(disk.faults) != []
  {
    ghost var was := disk.files;
    var first := InstallFiles(disk, i);
    installed := disk.files;
    AllManaged(was, installed, installed);
    if first.None? { return None, installed; }
    var more := EditConfig(disk, i);
    AllManaged(was, installed, disk.files);
    if first == Some(0) && more == Some(0) {
      AllInPlace(installed, disk.files, i);
    }
    assert At(disk.files, Token) == At(installed, Token) && At(disk.files, AdminToken) == At(installed, AdminToken);
    failures := if more.None? then None else Some(first.value + more.value);
  }

  lemma AllInPlace(installed: Contents, after: Contents, i: Inputs)
    requires OnlyChanges(installed, after, {ConfigFile, Backup, AliasBackup}) && Configured(after, i)
    requires Token in installed && AdminToken in installed
    requires Stands(installed, Shim, i.shim)
    requires Stands(installed, ControlInit, i.init) && Stands(installed, ControlManifest, i.manifest)
    ensures InPlace(after, i)
  {
    assert forall p <- [Token, AdminToken, Shim, ControlInit, ControlManifest] :: At(after, p) == At(installed, p);
    assert At(after, Token) == At(installed, Token) && At(after, AdminToken) == At(installed, AdminToken);
    assert At(after, Shim) == At(installed, Shim);
    assert At(after, ControlInit) == At(installed, ControlInit);
    assert At(after, ControlManifest) == At(installed, ControlManifest);
  }

  /** Whether the edits raise depends on the configuration alone. */
  lemma OnlyTheConfigMatters(before: Contents, other: Contents, i: Inputs)
    requires At(before, ConfigFile) == At(other, ConfigFile)
    ensures BothEdits(before, i).1.None? <==> BothEdits(other, i).1.None?
    ensures BothEdits(before, i).1 == Some(0) <==> BothEdits(other, i).1 == Some(0)
    ensures At(BothEdits(before, i).0, ConfigFile) == At(BothEdits(other, i).0, ConfigFile)
  {
    BothEditsAre(before, i);
    BothEditsAre(other, i);
  }

  /** Rolling back if there were problems. */
  method Conclude(disk: Disk, snapshots: Snapshots, failures: Option<nat>, ghost was: Contents) returns (r: Result)
    requires snapshots.Keys == (set p <- MANAGED) && forall p <- MANAGED :: snapshots[p] == At(was, p)
    requires OnlyChanges(was, disk.files, set p <- MANAGED)
    modifies disk
    ensures OnlyChanges(was, disk.files, set p <- MANAGED) && !r.Unprepared?
    ensures r.Escaped? <==> failures.None?
    ensures r.Installed? <==> failures == Some(0)
    ensures r.Escaped? || r.Installed? ==> disk.files == old(disk.files)
    ensures r.RolledBack? ==> forall p <- MANAGED :: p in r.unrestored || At(disk.files, p) == At(was, p)
    ensures r == RolledBack([]) ==> disk.files == was
    ensures r.RolledBack? && old(disk.faults) == [] ==> r == RolledBack([])
  {
    if failures.None? { return Escaped; }
    if failures.value == 0 { return Installed; }
    var unrestored := Rollback(disk, snapshots);
    if unrestored == [] {
      AllRestored(was, disk.files);
    }
    r := RolledBack(unrestored);
  }

  /** The command comes to this verdict on the configuration before it does anything: one that
    * is given, or not there, will do. */
  ghost predicate Comes(content: Option<Content>, i: Inputs, verdict: Verdict) {
    if i.given || content.None? then verdict == Passes
    else if content.value.Undecodable? then verdict == Throws
    else match i.yaml.load(Newlines(content.value.text))
      case Raises => verdict == Throws
      case NotYaml => verdict == Fails
      case Loaded(doc) => verdict == i.configOk(doc)
  }

  lemma {:induction false} PreparedComes(content: Option<Content>, i: Inputs)
    ensures forall verdict :: Comes(content, i, verdict) <==> verdict == Prepared(content, i)
  {
  }

  /** A shim is come to that is not somebody else's and whose rendering raises; the control
    * files are only come to if they are both to be replaced and there is an executable. */
  ghost predicate ComesToBreak(before: Contents, i: Inputs) {
    || (!NotOurs(before, Shim, i.shim) && i.shim.source.None?)
    || (!NotOurs(before, ControlInit, i.init) && !NotOurs(before, ControlManifest, i.manifest) && i.hasExecutable
        && (i.init.source.None? || i.manifest.source.None?))
  }

  /** How the command ends where no file operation fails, in terms of what it was given and of
    * the files. It stops or escapes before it has begun by its verdict on the configuration;
    * it escapes if a shim breaks or an edit raises, with the tokens there and what was written
    * of the configuration; it succeeds if the tokens fit, the shims fit and both edits end
    * well; and otherwise everything is put back. */
  ghost predicate SetupEnds(before: Contents, after: Contents, r: Result, i: Inputs) {
    var content := At(before, ConfigFile);
    var begins := Comes(content, i, Passes);
    var raises := PluginRaises(before, i) || AliasRaises(before, i);
    var breaks := ComesToBreak(before, i);
    var fits := TokensFit(before, i) && ShimsFit(before, i) && EditsEnd(before, i);
    && (r.Unprepared? <==> Comes(content, i, Fails))
    && (r.Escaped? <==> Comes(content, i, Throws) || (begins && (breaks || raises)))
    && (r.Installed? <==> begins && !breaks && !raises && fits)
    && (r == RolledBack([]) <==> begins && !breaks && !raises && !fits)
    && (r.Installed? ==> TokensKept(before, after, i) && At(after, ConfigFile) == AliasEdit(before, i).config)
    && (r.Escaped? && begins ==>
         TokensKept(before, after, i) &&
         At(after, ConfigFile) ==
           if breaks then content else if PluginRaises(before, i) then PluginEdit(before, i).config else AliasEdit(before, i).config)
  }

  /** What an exception of the command goes back to. */
  ghost predicate WhyEscaped(before: Contents, installed: Contents, after: Contents, i: Inputs) {
    || (after == before && Prepared(At(before, ConfigFile), i).Throws?)
    || Unrendered(i)
    || (At(installed, ConfigFile) == At(before, ConfigFile) && CanRaise(installed, after, i))
  }

  lemma AttemptDecides(
    before: Contents, installed: Contents, attempted: Contents, after: Contents, failures: Option<nat>, r: Result, i: Inputs)
    requires At(installed, ConfigFile) == At(before, ConfigFile) && Prepared(At(before, ConfigFile), i).Passes?
    requires AttemptEnds(before, installed, attempted, failures, i)
    requires !r.Unprepared? && (r.Escaped? <==> failures.None?) && (r.Escaped? || r.Installed? ==> after == attempted)
    requires (r.Installed? <==> failures == Some(0)) && (r.RolledBack? ==> r == RolledBack([]))
    ensures SetupEnds(before, after, r, i)
  {
    PreparedComes(At(before, ConfigFile), i);
    BothEditsAre(before, i);
    OnlyTheConfigMatters(before, installed, i);
    assert ComesToBreak(before, i) <==> RenderingBreaks(before, i);
  }

  /** The command once it has its configuration. */
  method Perform(disk: Disk, i: Inputs) returns (r: Result, ghost installed: Contents)
    requires Prepared(At(disk.files, ConfigFile), i).Passes?
    modifies disk
    ensures OnlyChanges(old(disk.files), disk.files, set p <- MANAGED)
    ensures r.Unprepared? ==> disk.files == old(disk.files)
    ensures r.RolledBack? ==> forall p <- MANAGED :: p in r.unrestored || At(disk.files, p) == At(old(disk.files), p)
    ensures r == RolledBack([]) ==> disk.files == old(disk.files)
    ensures InPlace(disk.files, i) || !r.Installed?
    ensures IntactStays(old(disk.files), disk.files, i) || r.RolledBack?
    ensures WhyEscaped(old(disk.files), installed, disk.files, i) || !r.Escaped?
    ensures SetupEnds(old(disk.files), disk.files, r, i) || old(disk.faults) != []
  {
    ghost var was := disk.files;
    installed := disk.files;
    var snapshots := TakeSnapshots(disk);
    if snapshots.None? { return Unprepared, installed; }
    var failures;
    failures, installed := Attempt(disk, i);
    ghost var attempted := disk.files;
    r := Conclude(disk, snapshots.value, failures, was);
    if AttemptEnds(was, installed, attempted, failures, i) && (r.RolledBack? ==> r == RolledBack([])) {
      AttemptDecides(was, installed, attempted, disk.files, failures, r, i);
    }
  }

  /** `setup`. It changes nothing but managed files. If it fails and reports no path it
    * could not restore, every file is as it was. The rollback is skipped by exceptions
    * that nobody catches: those of loading the configuration at first, with nothing
    * changed yet; those of rendering a shim, which leave the tokens behind; and those of
    * the two edits, which leave the tokens, the shims and what has been written of the
    * configuration behind. */
  method CmdSetup(disk: Disk, i: Inputs) returns (r: Result, ghost installed: Contents)
    modifies disk
    ensures OnlyChanges(old(disk.files), disk.files, set p <- MANAGED)
    ensures r.Unprepared? ==> disk.files == old(disk.files)
    ensures r.RolledBack? ==> forall p <- MANAGED :: p in r.unrestored || At(disk.files, p) == At(old(disk.files), p)
    ensures r == RolledBack([]) ==> disk.files == old(disk.files)
    ensures InPlace(disk.files, i) || !r.Installed?
    ensures IntactStays(old(disk.files), disk.files, i) || r.RolledBack?
    ensures WhyEscaped(old(disk.files), installed, disk.files, i) || !r.Escaped?
    ensures SetupEnds(old(disk.files), disk.files, r, i) || old(disk.faults) != []
  {
    installed := disk.files;
    PreparedComes(At(disk.files, ConfigFile), i);
    var prepared := Prepare(disk, i);
    match prepared {
      case Throws => r := Escaped;
      case Fails => r := Unprepared;
      case Passes => r, installed := Perform(disk, i);
    }
  }
}
