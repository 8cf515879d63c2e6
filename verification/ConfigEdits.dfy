/**
 * Editing the shared configuration file from any number of processes: setup changes,
 * which carry the revision they were made against and may mint a secret file, and
 * deployment toggles. Every access is its own step under the file's exclusive lock;
 * processes crash, writes tear, validation refuses.
 */
module ConfigEdits {
  import opened Wrappers

  type Path = string
  type Proc = nat

  /** Where a credential's secret comes from. Loading reads key files, not OAuth stores. */
  datatype Source = KeyFile(path: Path) | KeyEnv(name: string) | OAuthFile(path: Path) | OAuthEnv(name: string)

  datatype Credential = Credential(provider: string, source: Source)

  /** `rest` is everything of the document a credential edit leaves alone. */
  datatype Doc = Doc(rest: string, credentials: map<string, Credential>)

  /** The bytes on disk: a document, or something that does not parse. */
  datatype Content = Parsed(doc: Doc) | Garbage(bytes: string)

  /** The files a content's credentials name: as OAuth stores, or as key files. */
  function FilesOf(c: Content, oauth: bool): set<Path> {
    match c
    case Garbage(_) => {}
    case Parsed(d) =>
      set id | id in d.credentials && NamesFile(d.credentials[id].source, oauth) :: d.credentials[id].source.path
  }

  predicate NamesFile(s: Source, oauth: bool) { if oauth then s.OAuthFile? else s.KeyFile? }

  function KeyFiles(c: Content): set<Path> { FilesOf(c, false) }

  function OAuthFiles(c: Content): set<Path> { FilesOf(c, true) }

  /** What the rest of the program decides about a document, and the content digest. */
  datatype Rules = Rules(valid: Doc -> bool, digest: Content -> string)

  predicate Loads(rules: Rules, c: Content, files: set<Path>) {
    c.Parsed? && rules.valid(c.doc) && KeyFiles(c) <= files
  }

  /** Every key file the document's credentials name is there. */
  predicate KeyFilesIn(d: Doc, files: set<Path>) {
    forall id | id in d.credentials && d.credentials[id].source.KeyFile? :: d.credentials[id].source.path in files
  }

  lemma FilesOfDoc(c: Content, files: set<Path>)
    ensures c.Parsed? ==> (KeyFiles(c) <= files <==> KeyFilesIn(c.doc, files))
  {
    if c.Parsed? && KeyFiles(c) <= files {
      forall id | id in c.doc.credentials && c.doc.credentials[id].source.KeyFile?
        ensures c.doc.credentials[id].source.path in files
      {
        assert NamesFile(c.doc.credentials[id].source, false);
        assert c.doc.credentials[id].source.path in KeyFiles(c);
      }
    }
  }

  // ---- the edits -------------------------------------------------------------

  datatype Origin = Keep | Secret | FileRef(path: Path) | EnvRef(name: string)

  datatype Edit =
    | SetCredential(revision: string, accepts: Doc -> bool,
                    id: string, create: bool, provider: string, oauth: bool, origin: Origin)
    | SetRest(revision: string, accepts: Doc -> bool, patch: Doc -> Option<string>)
    | Toggle(flip: Doc -> Option<string>)

  predicate Mints(e: Edit) { e.SetCredential? && e.origin.Secret? }

  function SourceFor(e: Edit, secret: Path): Source
    requires e.SetCredential? && !e.origin.Keep?
  {
    match e.origin
    case Secret => if e.oauth then OAuthFile(secret) else KeyFile(secret)
    case FileRef(p) => if e.oauth then OAuthFile(p) else KeyFile(p)
    case EnvRef(n) => if e.oauth then OAuthEnv(n) else KeyEnv(n)
  }

  /** The edited document, or None for an item that exists or does not. */
  function Edited(e: Edit, d: Doc, secret: Path): Option<Doc> {
    match e
    case Toggle(flip) => (match flip(d) case None => None case Some(r) => Some(d.(rest := r)))
    case SetRest(_, _, patch) => (match patch(d) case None => None case Some(r) => Some(d.(rest := r)))
    case SetCredential(_, _, id, create, provider, _, origin) =>
      if create == (id in d.credentials) then None
      else if origin.Keep? then
        if id !in d.credentials then None
        else Some(d.(credentials := d.credentials[id := d.credentials[id].(provider := provider)]))
      else Some(d.(credentials := d.credentials[id := Credential(provider, SourceFor(e, secret))]))
  }

  /** The source a credential ends with, from what the edit names and what was there. */
  predicate SourceIs(e: Edit, was: Option<Source>, now: Source, minted: Path)
    requires e.SetCredential?
  {
    match e.origin
    case Keep => was == Some(now)
    case Secret => now == (if e.oauth then OAuthFile(minted) else KeyFile(minted))
    case FileRef(p) => now == (if e.oauth then OAuthFile(p) else KeyFile(p))
    case EnvRef(n) => now == (if e.oauth then OAuthEnv(n) else KeyEnv(n))
  }

  function SourceIn(d: Doc, id: string): Option<Source> {
    if id in d.credentials then Some(d.credentials[id].source) else None
  }

  /** What an edit leaves of a document: the one part it names, changed as it says, and the rest as it was. */
  predicate Leaves(e: Edit, before: Doc, after: Doc, minted: Path) {
    match e
    case Toggle(flip) => after.credentials == before.credentials && flip(before) == Some(after.rest)
    case SetRest(_, _, patch) => after.credentials == before.credentials && patch(before) == Some(after.rest)
    case SetCredential(_, _, id, _, provider, _, _) =>
      && after.rest == before.rest && after.credentials.Keys == before.credentials.Keys + {id}
      && (forall x | x in before.credentials && x != id :: after.credentials[x] == before.credentials[x])
      && after.credentials[id].provider == provider
      && SourceIs(e, SourceIn(before, id), after.credentials[id].source, minted)
  }

  /** An edit that cannot be made: creating what is there, changing what is not, or keeping nothing. */
  predicate Refuses(e: Edit, d: Doc) {
    match e
    case Toggle(flip) => flip(d).None?
    case SetRest(_, _, patch) => patch(d).None?
    case SetCredential(_, _, id, create, _, _, origin) =>
      (create && id in d.credentials) || (!create && id !in d.credentials) || (origin.Keep? && id !in d.credentials)
  }

  lemma EditedExactly(e: Edit, d: Doc, minted: Path)
    ensures Edited(e, d, minted).None? <==> Refuses(e, d)
    ensures Edited(e, d, minted).Some? ==> Leaves(e, d, Edited(e, d, minted).value, minted)
  {
  }

  /** What an edit leaves is one document. */
  lemma LeavesOne(e: Edit, before: Doc, a: Doc, b: Doc, minted: Path)
    requires Leaves(e, before, a, minted) && Leaves(e, before, b, minted)
    ensures a == b
  {
    assert a.credentials == b.credentials by {
      assert forall x | x in a.credentials :: a.credentials[x] == b.credentials[x];
    }
  }

  /** What the edit would leave is valid, and every key file it names is there. */
  ghost predicate Sound(rules: Rules, e: Edit, before: Doc, minted: Path, files: set<Path>) {
    exists d :: Leaves(e, before, d, minted) && rules.valid(d) && KeyFilesIn(d, files)
  }

  lemma SoundExactly(rules: Rules, e: Edit, d: Doc, minted: Path, files: set<Path>)
    requires !Refuses(e, d)
    ensures Edited(e, d, minted).Some?
    ensures Loads(rules, Parsed(Edited(e, d, minted).value), files) <==> Sound(rules, e, d, minted, files)
  {
    EditedExactly(e, d, minted);
    var next := Edited(e, d, minted).value;
    FilesOfDoc(Parsed(next), files);
    if Sound(rules, e, d, minted, files) {
      var a :| Leaves(e, d, a, minted) && rules.valid(a) && KeyFilesIn(a, files);
      LeavesOne(e, d, a, next, minted);
    }
  }

  /** A toggle neither carries a revision nor loads the file first. */
  predicate Admits(rules: Rules, e: Edit, base: Content, files: set<Path>) {
    e.Toggle? || (rules.digest(base) == e.revision && Loads(rules, base, files) && e.accepts(base.doc))
  }

  // ---- the serial specification ----------------------------------------------

  /** The files there were when a candidate was validated, and those about to be removed. */
  datatype Sight = Sight(files: set<Path>, doomed: set<Path>)

  /**
   * One write: the edit, the secret it minted, the files its base was loaded with, what was
   * there when its candidate was validated, and what a tear left.
   */
  datatype Event = Event(edit: Edit, minted: Option<Path>, files: set<Path>, sight: Sight, torn: Option<Content>)

  function PathOf(minted: Option<Path>): Path { if minted.Some? then minted.value else "" }

  /** The edit was made against `base`, and its candidate loaded, the secret it minted among the files. */
  predicate Allowed(rules: Rules, base: Content, ev: Event) {
    && Admits(rules, ev.edit, base, ev.files) && base.Parsed?
    && Mints(ev.edit) == ev.minted.Some? && (ev.minted.Some? ==> ev.minted.value in ev.sight.files)
    && var next := Edited(ev.edit, base.doc, PathOf(ev.minted));
    next.Some? && Loads(rules, Parsed(next.value), ev.sight.files)
  }

  function Written(base: Content, ev: Event): Content {
    if base.Garbage? then base
    else
      var next := Edited(ev.edit, base.doc, PathOf(ev.minted));
      if next.None? then base else Parsed(next.value)
  }

  /** The file after one atomic edit after another. */
  function Replay(c: Content, log: seq<Event>): Content
    decreases |log|
  {
    if log == [] then c
    else
      var ev := log[|log| - 1];
      if ev.torn.Some? then ev.torn.value else Written(Replay(c, log[..|log| - 1]), ev)
  }

  predicate Legal(rules: Rules, c: Content, log: seq<Event>) {
    forall i | 0 <= i < |log| :: Allowed(rules, Replay(c, log[..i]), log[i])
  }

  // ---- the world -------------------------------------------------------------

  /** A process holding the lock: after its read, its checks, its secret, its validation. */
  datatype Hold =
    | Reading(edit: Edit, base: Content)
    | Checked(edit: Edit, base: Content, files: set<Path>)
    | Minted(edit: Edit, base: Content, files: set<Path>, secret: Path)
    | Ready(edit: Edit, base: Content, files: set<Path>, minted: Option<Path>, sight: Sight)

  /**
   * `files` are the secret files that exist, `removed` those taken away again. A process
   * that gave up has released the file lock and still has its secret to remove: `doomed`.
   * Until then it holds its own mutex, so it starts no other edit.
   */
  datatype World = World(
    file: Content, holder: Option<(Proc, Hold)>, files: set<Path>, removed: set<Path>,
    doomed: map<Proc, Path>, log: seq<Event>)

  function Start(c: Content, files: set<Path>): World { World(c, None, files, {}, map[], []) }

  function Doomed(w: World): set<Path> { set p | p in w.doomed :: w.doomed[p] }

  datatype Step =
    | Acquire(p: Proc, edit: Edit)
    | Check(p: Proc)
    | Mint(p: Proc, path: Path)
    | Settle(p: Proc, prepared: bool)
    | WriteAll(p: Proc)
    | WriteTorn(p: Proc, left: Content)
    | Crash(p: Proc)
    | Remove(p: Proc)
    | Spare(p: Proc)

  predicate Holds(w: World, p: Proc) { w.holder.Some? && w.holder.value.0 == p }

  function Let(w: World): World { w.(holder := None) }

  /** Giving up before the candidate was prepared: the lock goes first, the secret after it. */
  function Abandon(w: World, p: Proc, minted: Option<Path>): World {
    match minted
    case None => Let(w)
    case Some(path) => Let(w).(doomed := w.doomed[p := path])
  }

  function Candidate(edit: Edit, base: Content, minted: Option<Path>): Option<Doc> {
    if base.Garbage? then None else Edited(edit, base.doc, PathOf(minted))
  }

  function DoSettle(rules: Rules, w: World, p: Proc, prepared: bool): World
    requires Holds(w, p)
  {
    var h := w.holder.value.1;
    if !(h.Minted? || (h.Checked? && !Mints(h.edit))) then w
    else
      var minted := if h.Minted? then Some(h.secret) else None;
      var next := Candidate(h.edit, h.base, minted);
      if !prepared || next.None? || !Loads(rules, Parsed(next.value), w.files) then Abandon(w, p, minted)
      else w.(holder := Some((p, Ready(h.edit, h.base, h.files, minted, Sight(w.files, Doomed(w))))))
  }

  function EventOf(h: Hold, torn: Option<Content>): Event
    requires h.Ready?
  {
    Event(h.edit, h.minted, h.files, h.sight, torn)
  }

  function DoWrite(w: World, torn: Option<Content>): World
    requires w.holder.Some? && w.holder.value.1.Ready?
  {
    var ev := EventOf(w.holder.value.1, torn);
    Let(w).(file := if torn.Some? then torn.value else Written(w.file, ev), log := w.log + [ev])
  }

  /** The removal after a refusal; a failed one is ignored, and so is a process that dies first. */
  function DoRemove(w: World, p: Proc, gone: bool): World {
    if p !in w.doomed then w
    else if !gone then w.(doomed := w.doomed - {p})
    else w.(doomed := w.doomed - {p}, files := w.files - {w.doomed[p]}, removed := w.removed + {w.doomed[p]})
  }

  function DoMint(w: World, p: Proc, path: Path): World {
    if !Holds(w, p) || !w.holder.value.1.Checked? || !Mints(w.holder.value.1.edit) || path in w.files then w
    else
      var h := w.holder.value.1;
      w.(holder := Some((p, Minted(h.edit, h.base, h.files, path))),
         files := w.files + {path}, removed := w.removed - {path})
  }

  function Apply(rules: Rules, w: World, s: Step): World {
    match s
    case Acquire(p, e) =>
      if w.holder.Some? || p in w.doomed then w else w.(holder := Some((p, Reading(e, w.file))))
    case Check(p) =>
      if !Holds(w, p) || !w.holder.value.1.Reading? then w
      else
        var h := w.holder.value.1;
        if !Admits(rules, h.edit, h.base, w.files) then Let(w)
        else w.(holder := Some((p, Checked(h.edit, h.base, w.files))))
    case Mint(p, path) => DoMint(w, p, path)
    case Settle(p, prepared) => if Holds(w, p) then DoSettle(rules, w, p, prepared) else w
    case WriteAll(p) => if Holds(w, p) && w.holder.value.1.Ready? then DoWrite(w, None) else w
    case WriteTorn(p, left) => if Holds(w, p) && w.holder.value.1.Ready? then DoWrite(w, Some(left)) else w
    case Crash(p) => if Holds(w, p) then Let(w) else w
    case Remove(p) => DoRemove(w, p, true)
    case Spare(p) => DoRemove(w, p, false)
  }

  function Exec(rules: Rules, w: World, run: seq<Step>): World
    decreases |run|
  {
    if run == [] then w else Apply(rules, Exec(rules, w, run[..|run| - 1]), run[|run| - 1])
  }

  // ---- the secret files ------------------------------------------------------

  /** What is gone from the disk or about to go. */
  function Gone(w: World): set<Path> { w.removed + Doomed(w) }

  /** The files, those removed and those doomed, whatever has been written. */
  predicate FilesInv(w: World) {
    && w.removed !! w.files && Doomed(w) <= w.files
    && (forall p, q | p in w.doomed && q in w.doomed && p != q :: w.doomed[p] != w.doomed[q])
    && (w.holder.Some? ==> w.holder.value.0 !in w.doomed)
    && (w.holder.Some? && w.holder.value.1.Minted? ==>
          w.holder.value.1.secret in w.files && w.holder.value.1.secret !in Doomed(w))
    && (w.holder.Some? && w.holder.value.1.Ready? ==>
          var sight := w.holder.value.1.sight;
          Gone(w) * sight.files <= sight.doomed)
  }

  lemma {:induction false} DoomedOf(w: World, p: Proc)
    ensures p in w.doomed ==> w.doomed[p] in Doomed(w)
    ensures p !in w.doomed ==> forall path :: Doomed(w.(doomed := w.doomed[p := path])) == Doomed(w) + {path}
    ensures Doomed(w.(doomed := w.doomed - {p})) <= Doomed(w)
  {
    forall path | p !in w.doomed
      ensures Doomed(w.(doomed := w.doomed[p := path])) == Doomed(w) + {path}
    {
      var v := w.(doomed := w.doomed[p := path]);
      assert v.doomed[p] in Doomed(v);
      assert forall q | q in w.doomed :: v.doomed[q] == w.doomed[q];
    }
  }

  lemma RemoveDoomed(w: World, p: Proc, gone: bool)
    requires FilesInv(w) && p in w.doomed
    ensures var v := DoRemove(w, p, gone);
            && Doomed(v) == Doomed(w) - {w.doomed[p]} && Gone(v) <= Gone(w) && FilesInv(v)
  {
    DoomedOf(w, p);
    var v := DoRemove(w, p, gone);
    assert v.doomed == w.doomed - {p};
    assert Doomed(v) == Doomed(w.(doomed := w.doomed - {p}));
    forall x | x in Doomed(w) && x != w.doomed[p]
      ensures x in Doomed(v)
    {
      var q :| q in w.doomed && w.doomed[q] == x;
      assert v.doomed[q] == x;
    }
  }

  lemma SettleFiles(rules: Rules, w: World, p: Proc, prepared: bool)
    requires FilesInv(w) && Holds(w, p)
    ensures FilesInv(DoSettle(rules, w, p, prepared))
  {
    var v := DoSettle(rules, w, p, prepared);
    if v.doomed != w.doomed {
      DoomedOf(w, p);
      assert v.doomed == w.doomed[p := w.holder.value.1.secret];
      assert Doomed(v) == Doomed(w.(doomed := v.doomed));
    } else {
      assert Doomed(v) == Doomed(w);
    }
  }

  lemma FilesStep(rules: Rules, w: World, s: Step)
    requires FilesInv(w)
    ensures FilesInv(Apply(rules, w, s))
  {
    var v := Apply(rules, w, s);
    match s
    case Settle(p, prepared) =>
      if Holds(w, p) {
        SettleFiles(rules, w, p, prepared);
      }
    case Remove(p) =>
      if p in w.doomed {
        RemoveDoomed(w, p, true);
      }
    case Spare(p) =>
      if p in w.doomed {
        RemoveDoomed(w, p, false);
      }
    case _ =>
      assert Doomed(v) == Doomed(w);
  }

  // ---- serialisability -------------------------------------------------------

  predicate HoldFaithful(rules: Rules, w: World, h: Hold) {
    && h.base == w.file
    && (h.Checked? || h.Minted? ==> Admits(rules, h.edit, h.base, h.files))
    && (h.Minted? ==> Mints(h.edit))
    && (h.Ready? ==> Allowed(rules, h.base, EventOf(h, None)))
  }

  predicate SerialInv(rules: Rules, c: Content, w: World) {
    && Legal(rules, c, w.log) && Replay(c, w.log) == w.file
    && (w.holder.Some? ==> HoldFaithful(rules, w, w.holder.value.1))
  }

  lemma WriteSerial(rules: Rules, c: Content, w: World, torn: Option<Content>)
    requires SerialInv(rules, c, w) && w.holder.Some? && w.holder.value.1.Ready?
    ensures SerialInv(rules, c, DoWrite(w, torn))
  {
    var v := DoWrite(w, torn);
    assert v.log[..|w.log|] == w.log;
    forall i | 0 <= i < |v.log|
      ensures Allowed(rules, Replay(c, v.log[..i]), v.log[i])
    {
      assert v.log[..i] == w.log[..i];
    }
  }

  lemma SettleSerial(rules: Rules, c: Content, w: World, p: Proc, prepared: bool)
    requires SerialInv(rules, c, w) && FilesInv(w) && Holds(w, p)
    ensures SerialInv(rules, c, DoSettle(rules, w, p, prepared))
  {
  }

  lemma SerialStep(rules: Rules, c: Content, w: World, s: Step)
    requires SerialInv(rules, c, w) && FilesInv(w)
    ensures SerialInv(rules, c, Apply(rules, w, s))
  {
    match s
    case Settle(p, prepared) =>
      if Holds(w, p) {
        SettleSerial(rules, c, w, p, prepared);
      }
    case WriteAll(p) =>
      if Holds(w, p) && w.holder.value.1.Ready? {
        WriteSerial(rules, c, w, None);
      }
    case WriteTorn(p, left) =>
      if Holds(w, p) && w.holder.value.1.Ready? {
        WriteSerial(rules, c, w, Some(left));
      }
    case _ =>
  }

  /**
   * Every interleaving is a serial run: the file is what the logged edits give one after
   * another, and each was made against exactly the content the ones before it had left.
   */
  lemma {:induction false} Serialisable(rules: Rules, c: Content, files: set<Path>, run: seq<Step>)
    ensures SerialInv(rules, c, Exec(rules, Start(c, files), run)) && FilesInv(Exec(rules, Start(c, files), run))
    decreases |run|
  {
    if run != [] {
      Serialisable(rules, c, files, run[..|run| - 1]);
      var w := Exec(rules, Start(c, files), run[..|run| - 1]);
      SerialStep(rules, c, w, run[|run| - 1]);
      FilesStep(rules, w, run[|run| - 1]);
    }
  }

  /**
   * Of two changes made against one revision the second is written only when the file
   * has come back to the very content both were made against.
   */
  lemma OneChangePerRevision(rules: Rules, c: Content, files: set<Path>, run: seq<Step>, i: nat, j: nat)
    requires forall a, b :: rules.digest(a) == rules.digest(b) ==> a == b
    requires var log := Exec(rules, Start(c, files), run).log;
      && i < j < |log| && !log[i].edit.Toggle? && !log[j].edit.Toggle?
      && log[i].edit.revision == log[j].edit.revision
    ensures var log := Exec(rules, Start(c, files), run).log; Replay(c, log[..i]) == Replay(c, log[..j])
  {
    Serialisable(rules, c, files, run);
    var log := Exec(rules, Start(c, files), run).log;
    assert Allowed(rules, Replay(c, log[..i]), log[i]) && Allowed(rules, Replay(c, log[..j]), log[j]);
  }

  // ---- what the file names ---------------------------------------------------

  /** A torn file is pieces of the old and the new text. Its names are theirs unless a name was cut. */
  predicate CleanTear(base: Content, next: Content, left: Content) {
    && KeyFiles(left) <= KeyFiles(base) + KeyFiles(next)
    && OAuthFiles(left) <= OAuthFiles(base) + OAuthFiles(next)
  }

  /**
   * No write since the last whole one named as a key file a secret that was about to be
   * removed when its candidate was validated, and no tear since then cut a name in two.
   */
  predicate Tidy(c: Content, log: seq<Event>)
    decreases |log|
  {
    || log == []
    || var ev, before := log[|log| - 1], log[..|log| - 1];
       var base := Replay(c, before);
       && ev.sight.doomed !! KeyFiles(Written(base, ev))
       && (ev.torn.None? || (Tidy(c, before) && CleanTear(base, Written(base, ev), ev.torn.value)))
  }

  /** What a holder knows while the log is tidy: its base loads, and its new secret is not in it. */
  predicate HoldSafe(w: World, h: Hold) {
    && (h.Checked? && Mints(h.edit) ==> KeyFiles(h.base) <= w.files)
    && (h.Minted? ==> h.secret !in KeyFiles(h.base))
  }

  predicate SecretsInv(rules: Rules, c: Content, w: World) {
    && SerialInv(rules, c, w) && FilesInv(w)
    && (Tidy(c, w.log) ==>
          && Gone(w) !! KeyFiles(w.file)
          && (w.holder.Some? ==> HoldSafe(w, w.holder.value.1)))
  }

  lemma WriteSecrets(rules: Rules, c: Content, w: World, torn: Option<Content>)
    requires SecretsInv(rules, c, w) && w.holder.Some? && w.holder.value.1.Ready?
    ensures Tidy(c, DoWrite(w, torn).log) ==> Gone(DoWrite(w, torn)) !! KeyFiles(DoWrite(w, torn).file)
  {
    var v, h := DoWrite(w, torn), w.holder.value.1;
    assert v.log[..|w.log|] == w.log;
    assert Doomed(v) == Doomed(w);
    if Tidy(c, v.log) {
      var next := Written(w.file, EventOf(h, torn));
      assert KeyFiles(next) <= h.sight.files;
      assert Gone(w) !! KeyFiles(next);
    }
  }

  lemma RemoveSecrets(rules: Rules, c: Content, w: World, p: Proc, gone: bool)
    requires SecretsInv(rules, c, w) && p in w.doomed
    ensures var v := DoRemove(w, p, gone);
            Tidy(c, v.log) ==> Gone(v) !! KeyFiles(v.file) && (v.holder.Some? ==> HoldSafe(v, v.holder.value.1))
  {
    RemoveDoomed(w, p, gone);
    DoomedOf(w, p);
  }

  lemma SettleSecrets(rules: Rules, c: Content, w: World, p: Proc, prepared: bool)
    requires SecretsInv(rules, c, w) && Holds(w, p)
    ensures var v := DoSettle(rules, w, p, prepared);
            Tidy(c, v.log) ==> Gone(v) !! KeyFiles(v.file) && (v.holder.Some? ==> HoldSafe(v, v.holder.value.1))
  {
    var v := DoSettle(rules, w, p, prepared);
    if v.doomed != w.doomed {
      DoomedOf(w, p);
      assert v.doomed == w.doomed[p := w.holder.value.1.secret];
      assert Doomed(v) == Doomed(w.(doomed := v.doomed));
    } else {
      assert Doomed(v) == Doomed(w);
    }
  }

  lemma QuietSecrets(rules: Rules, c: Content, w: World, s: Step)
    requires SecretsInv(rules, c, w) && (s.Acquire? || s.Check? || s.Mint? || s.Crash?)
    ensures var v := Apply(rules, w, s);
            Tidy(c, v.log) ==> Gone(v) !! KeyFiles(v.file) && (v.holder.Some? ==> HoldSafe(v, v.holder.value.1))
  {
    assert Doomed(Apply(rules, w, s)) == Doomed(w);
  }

  lemma SecretsStep(rules: Rules, c: Content, w: World, s: Step)
    requires SecretsInv(rules, c, w)
    ensures SecretsInv(rules, c, Apply(rules, w, s))
  {
    SerialStep(rules, c, w, s);
    FilesStep(rules, w, s);
    match s
    case Settle(p, prepared) =>
      if Holds(w, p) {
        SettleSecrets(rules, c, w, p, prepared);
      }
    case WriteAll(p) =>
      if Holds(w, p) && w.holder.value.1.Ready? {
        WriteSecrets(rules, c, w, None);
      }
    case WriteTorn(p, left) =>
      if Holds(w, p) && w.holder.value.1.Ready? {
        WriteSecrets(rules, c, w, Some(left));
      }
    case Remove(p) =>
      if p in w.doomed {
        RemoveSecrets(rules, c, w, p, true);
      }
    case Spare(p) =>
      if p in w.doomed {
        RemoveSecrets(rules, c, w, p, false);
      }
    case _ =>
      QuietSecrets(rules, c, w, s);
  }

  /**
   * In every interleaving, with crashes, torn writes and removals at any later time: while
   * the log is tidy the file on disk names as a key file no secret that is gone or going.
   */
  lemma {:induction false} SecretsKept(rules: Rules, c: Content, files: set<Path>, run: seq<Step>)
    ensures SecretsInv(rules, c, Exec(rules, Start(c, files), run))
    decreases |run|
  {
    if run != [] {
      SecretsKept(rules, c, files, run[..|run| - 1]);
      SecretsStep(rules, c, Exec(rules, Start(c, files), run[..|run| - 1]), run[|run| - 1]);
    }
  }

  /** The edit itself refers to one of these files, as an OAuth store or as a key file. */
  predicate RefersTo(e: Edit, paths: set<Path>, oauth: bool) {
    e.SetCredential? && e.oauth == oauth && e.origin.FileRef? && e.origin.path in paths
  }

  /**
   * An edit of a content that names none of these files writes one that names some exactly
   * when the edit itself refers to one. For files that are gone or going this is what breaks
   * the promise: loading opens key files, which may be about to go, and no OAuth stores.
   */
  lemma FileNamed(e: Edit, base: Doc, minted: Option<Path>, paths: set<Path>, oauth: bool)
    requires Mints(e) == minted.Some? && (minted.Some? ==> minted.value !in paths)
    requires paths !! FilesOf(Parsed(base), oauth) && Edited(e, base, PathOf(minted)).Some?
    ensures paths !! FilesOf(Parsed(Edited(e, base, PathOf(minted)).value), oauth) <==> !RefersTo(e, paths, oauth)
  {
    var next := Edited(e, base, PathOf(minted)).value;
    if RefersTo(e, paths, oauth) {
      assert NamesFile(next.credentials[e.id].source, oauth);
      assert e.origin.path in FilesOf(Parsed(next), oauth);
    } else {
      forall id | id in next.credentials && NamesFile(next.credentials[id].source, oauth)
        ensures next.credentials[id].source.path !in paths
      {
        if id in base.credentials && next.credentials[id].source == base.credentials[id].source {
          assert base.credentials[id].source.path in FilesOf(Parsed(base), oauth);
        }
      }
    }
  }

  /** A whole write keeps the log tidy exactly when its edit refers to no doomed key file. */
  lemma TidyExactly(rules: Rules, c: Content, log: seq<Event>, ev: Event)
    requires ev.torn.None? && Allowed(rules, Replay(c, log), ev)
    requires ev.sight.doomed !! KeyFiles(Replay(c, log)) && (ev.minted.Some? ==> ev.minted.value !in ev.sight.doomed)
    ensures Tidy(c, log + [ev]) <==> !RefersTo(ev.edit, ev.sight.doomed, false)
  {
    assert (log + [ev])[..|log|] == log;
    FileNamed(ev.edit, Replay(c, log).doc, ev.minted, ev.sight.doomed, false);
  }

  // ---- which writes break it -------------------------------------------------

  /** At validation, a tidy base named nothing that was doomed, and the new secret was not doomed. */
  predicate SightTrue(c: Content, log: seq<Event>, minted: Option<Path>, sight: Sight) {
    && (Tidy(c, log) ==> sight.doomed !! KeyFiles(Replay(c, log)))
    && (minted.Some? ==> minted.value !in sight.doomed)
  }

  predicate Sighted(c: Content, log: seq<Event>) {
    forall i | 0 <= i < |log| :: SightTrue(c, log[..i], log[i].minted, log[i].sight)
  }

  predicate SightsInv(c: Content, w: World) {
    && Sighted(c, w.log)
    && (w.holder.Some? && w.holder.value.1.Ready? ==>
          SightTrue(c, w.log, w.holder.value.1.minted, w.holder.value.1.sight))
  }

  lemma SightsWrite(c: Content, w: World, torn: Option<Content>)
    requires SightsInv(c, w) && w.holder.Some? && w.holder.value.1.Ready?
    ensures SightsInv(c, DoWrite(w, torn))
  {
    var v := DoWrite(w, torn);
    forall i | 0 <= i < |v.log|
      ensures SightTrue(c, v.log[..i], v.log[i].minted, v.log[i].sight)
    {
      assert v.log[..i] == w.log[..i];
      assert w.log[..|w.log|] == w.log;
    }
  }

  lemma SightsStep(rules: Rules, c: Content, w: World, s: Step)
    requires SecretsInv(rules, c, w) && SightsInv(c, w)
    ensures SightsInv(c, Apply(rules, w, s))
  {
    match s
    case WriteAll(p) =>
      if Holds(w, p) && w.holder.value.1.Ready? {
        SightsWrite(c, w, None);
      }
    case WriteTorn(p, left) =>
      if Holds(w, p) && w.holder.value.1.Ready? {
        SightsWrite(c, w, Some(left));
      }
    case _ =>
  }

  lemma {:induction false} SightsRun(rules: Rules, c: Content, files: set<Path>, run: seq<Step>)
    ensures SightsInv(c, Exec(rules, Start(c, files), run))
    decreases |run|
  {
    if run != [] {
      SecretsKept(rules, c, files, run[..|run| - 1]);
      SightsRun(rules, c, files, run[..|run| - 1]);
      SightsStep(rules, c, Exec(rules, Start(c, files), run[..|run| - 1]), run[|run| - 1]);
    }
  }

  /** A write that breaks the promise: its edit refers to a doomed key file, or its tear cut a name. */
  predicate Breaks(base: Content, ev: Event) {
    || RefersTo(ev.edit, ev.sight.doomed, false)
    || (ev.torn.Some? && !CleanTear(base, Written(base, ev), ev.torn.value))
  }

  ghost predicate SomeBreaks(c: Content, log: seq<Event>) {
    exists i :: 0 <= i < |log| && Breaks(Replay(c, log[..i]), log[i])
  }

  /** The next write of a log is allowed, was validated rightly, and does not break the promise. */
  predicate Good(rules: Rules, c: Content, log: seq<Event>, ev: Event) {
    && Allowed(rules, Replay(c, log), ev) && SightTrue(c, log, ev.minted, ev.sight)
    && !Breaks(Replay(c, log), ev)
  }

  lemma TidyNext(rules: Rules, c: Content, log: seq<Event>, ev: Event)
    requires Tidy(c, log) && Good(rules, c, log, ev)
    ensures Tidy(c, log + [ev])
  {
    assert (log + [ev])[..|log|] == log;
    FileNamed(ev.edit, Replay(c, log).doc, ev.minted, ev.sight.doomed, false);
  }

  predicate AllGood(rules: Rules, c: Content, log: seq<Event>)
    decreases |log|
  {
    log == [] || (AllGood(rules, c, log[..|log| - 1]) && Good(rules, c, log[..|log| - 1], log[|log| - 1]))
  }

  lemma GoodAt(rules: Rules, c: Content, log: seq<Event>, i: nat)
    requires Legal(rules, c, log) && Sighted(c, log) && !SomeBreaks(c, log) && i < |log|
    ensures Good(rules, c, log[..i], log[i])
  {
  }

  lemma {:induction false} GoodUnless(rules: Rules, c: Content, log: seq<Event>, i: nat)
    requires Legal(rules, c, log) && Sighted(c, log) && !SomeBreaks(c, log) && i <= |log|
    ensures AllGood(rules, c, log[..i])
    decreases i
  {
    if i > 0 {
      GoodUnless(rules, c, log, i - 1);
      GoodAt(rules, c, log, i - 1);
      assert log[..i][..i - 1] == log[..i - 1];
    }
  }

  lemma {:induction false} TidyIfGood(rules: Rules, c: Content, log: seq<Event>)
    requires AllGood(rules, c, log)
    ensures Tidy(c, log)
  {
    if log != [] {
      var init, ev := log[..|log| - 1], log[|log| - 1];
      TidyIfGood(rules, c, init);
      TidyNext(rules, c, init, ev);
      assert log == init + [ev];
    }
  }

  /**
   * The file on disk comes to name a removed secret as a key file only through a write whose
   * edit referred to it, or to another, between the refusal that doomed it and its removal,
   * or through a tear that cut a name in two.
   */
  lemma NamedOnlyByReference(rules: Rules, c: Content, files: set<Path>, run: seq<Step>)
    ensures var w := Exec(rules, Start(c, files), run); Gone(w) !! KeyFiles(w.file) || SomeBreaks(c, w.log)
  {
    SecretsKept(rules, c, files, run);
    SightsRun(rules, c, files, run);
    var w := Exec(rules, Start(c, files), run);
    if !SomeBreaks(c, w.log) {
      GoodUnless(rules, c, w.log, |w.log|);
      assert w.log[..|w.log|] == w.log;
      TidyIfGood(rules, c, w.log);
    }
  }

  // ---- OAuth stores ----------------------------------------------------------

  /** What keeps OAuth stores safe, step by step. */
  predicate Careful(w: World, s: Step) {
    match s
    case Acquire(_, e) => !RefersTo(e, Gone(w), true)
    case Mint(_, path) => path !in OAuthFiles(w.file)
    case WriteTorn(p, left) =>
      Holds(w, p) && w.holder.value.1.Ready? ==>
        CleanTear(w.file, Written(w.file, EventOf(w.holder.value.1, None)), left)
    case _ => true
  }

  predicate AllCareful(rules: Rules, w: World, run: seq<Step>) {
    forall i | 0 <= i < |run| :: Careful(Exec(rules, w, run[..i]), run[i])
  }

  predicate HoldSpares(w: World, h: Hold) {
    && !RefersTo(h.edit, Gone(w), true)
    && (h.Minted? ==> h.secret !in OAuthFiles(h.base))
    && (h.Ready? ==> Gone(w) !! OAuthFiles(Written(h.base, EventOf(h, None))))
  }

  predicate StoresInv(rules: Rules, c: Content, w: World) {
    && SerialInv(rules, c, w) && FilesInv(w) && Gone(w) !! OAuthFiles(w.file)
    && (w.holder.Some? ==> HoldSpares(w, w.holder.value.1))
  }

  lemma SettleStores(rules: Rules, c: Content, w: World, p: Proc, prepared: bool)
    requires StoresInv(rules, c, w) && Holds(w, p)
    ensures var v := DoSettle(rules, w, p, prepared);
            Gone(v) !! OAuthFiles(v.file) && (v.holder.Some? ==> HoldSpares(v, v.holder.value.1))
  {
    var v, h := DoSettle(rules, w, p, prepared), w.holder.value.1;
    if v.doomed != w.doomed {
      DoomedOf(w, p);
      assert v.doomed == w.doomed[p := h.secret];
      assert Doomed(v) == Doomed(w.(doomed := v.doomed));
    } else {
      assert Gone(v) == Gone(w) by {
        assert Doomed(v) == Doomed(w);
      }
      if v != w && v.holder.Some? {
        var g := v.holder.value.1;
        FileNamed(h.edit, h.base.doc, g.minted, Gone(w), true);
      }
    }
  }

  lemma OtherStores(rules: Rules, c: Content, w: World, s: Step)
    requires StoresInv(rules, c, w) && Careful(w, s) && !s.Settle? && !s.Remove? && !s.Spare?
    ensures var v := Apply(rules, w, s);
            Gone(v) !! OAuthFiles(v.file) && (v.holder.Some? ==> HoldSpares(v, v.holder.value.1))
  {
    var v := Apply(rules, w, s);
    assert Doomed(v) == Doomed(w);
    assert Gone(v) <= Gone(w);
  }

  lemma StoresStep(rules: Rules, c: Content, w: World, s: Step)
    requires StoresInv(rules, c, w) && Careful(w, s)
    ensures StoresInv(rules, c, Apply(rules, w, s))
  {
    SerialStep(rules, c, w, s);
    FilesStep(rules, w, s);
    match s
    case Settle(p, prepared) =>
      if Holds(w, p) {
        SettleStores(rules, c, w, p, prepared);
      }
    case Remove(p) =>
      if p in w.doomed {
        RemoveDoomed(w, p, true);
      }
    case Spare(p) =>
      if p in w.doomed {
        RemoveDoomed(w, p, false);
      }
    case _ =>
      OtherStores(rules, c, w, s);
  }

  lemma {:induction false} StoresKept(rules: Rules, c: Content, files: set<Path>, run: seq<Step>)
    requires AllCareful(rules, Start(c, files), run)
    ensures StoresInv(rules, c, Exec(rules, Start(c, files), run))
    decreases |run|
  {
    if run != [] {
      var before := run[..|run| - 1];
      forall i | 0 <= i < |before|
        ensures Careful(Exec(rules, Start(c, files), before[..i]), before[i])
      {
        assert before[..i] == run[..i];
      }
      StoresKept(rules, c, files, before);
      StoresStep(rules, c, Exec(rules, Start(c, files), before), run[|run| - 1]);
    }
  }

  // ---- the two writers -------------------------------------------------------

  datatype Refusal = Stale | Unloadable | Unacceptable | NoSecretFile | NoSuchItem | Invalid | NoAdapter | WriteFailed

  /** How creating the secret file went: no file, or one that may not have taken the secret. */
  datatype Minting = NoFile | NewFile(path: Path, written: bool)

  /** What befalls a call: the secret file, the adapters, a tear, and the removal after a refusal. */
  datatype Luck = Luck(minting: Minting, adapters: bool, torn: Option<Content>, removes: bool)

  /** The steps of one call that nothing interleaves with. */
  function Steps(p: Proc, e: Edit, luck: Luck): seq<Step> {
    var prepared := luck.adapters && (Mints(e) ==> luck.minting.NewFile? && luck.minting.written);
    [Acquire(p, e), Check(p)]
    + (if !Mints(e) then [] else if luck.minting.NoFile? then [Crash(p)] else [Mint(p, luck.minting.path)])
    + [Settle(p, prepared)]
    + [if luck.torn.Some? then WriteTorn(p, luck.torn.value) else WriteAll(p),
       if luck.removes then Remove(p) else Spare(p)]
  }

  /** What such a call leaves behind. */
  function Called(rules: Rules, w: World, e: Edit, luck: Luck): World {
    if !Admits(rules, e, w.file, w.files) || (Mints(e) && luck.minting.NoFile?) || w.file.Garbage? then w
    else
      var minted := if Mints(e) then Some(luck.minting.path) else None;
      var files := if Mints(e) then w.files + {luck.minting.path} else w.files;
      var removed := if Mints(e) then w.removed - {luck.minting.path} else w.removed;
      var next := Edited(e, w.file.doc, PathOf(minted));
      var unwritten := Mints(e) && !luck.minting.written;
      if !luck.adapters || unwritten || next.None? || !Loads(rules, Parsed(next.value), files) then
        if Mints(e) && luck.removes
        then w.(files := files - {luck.minting.path}, removed := removed + {luck.minting.path})
        else w.(files := files, removed := removed)
      else
        w.(file := if luck.torn.Some? then luck.torn.value else Parsed(next.value), files := files, removed := removed,
           log := w.log + [Event(e, minted, w.files, Sight(files, Doomed(w)), luck.torn)])
  }

  function PathBy(m: Minting): Path { if m.NewFile? then m.path else "" }

  function MintedBy(e: Edit, m: Minting): set<Path> { if Mints(e) && m.NewFile? then {m.path} else {} }

  /** Only an edit that mints looks at the path. */
  lemma SamePath(e: Edit, d: Doc, m: Minting)
    requires Mints(e) ==> m.NewFile?
    ensures Edited(e, d, PathBy(m)) == Edited(e, d, PathOf(if Mints(e) then Some(m.path) else None))
  {
  }

  /** The file parses, is valid, and the key files it names are there. */
  predicate Opens(rules: Rules, c: Content, files: set<Path>) {
    c.Parsed? && rules.valid(c.doc) && KeyFilesIn(c.doc, files)
  }

  /** The change was made against the file as it is, and the file is sound. */
  predicate Current(rules: Rules, e: Edit, c: Content, files: set<Path>)
    requires !e.Toggle?
  {
    rules.digest(c) == e.revision && Opens(rules, c, files)
  }

  predicate Welcome(rules: Rules, e: Edit, c: Content, files: set<Path>)
    requires !e.Toggle?
  {
    Current(rules, e, c, files) && e.accepts(c.doc)
  }

  /** The change is welcome and has the secret file it needs. */
  predicate Supplied(rules: Rules, e: Edit, c: Content, files: set<Path>, luck: Luck)
    requires !e.Toggle?
  {
    Welcome(rules, e, c, files) && (Mints(e) ==> luck.minting.NewFile? && luck.minting.written)
  }

  class ConfigFile {
    var file: Content
    var files: set<Path>
    var removed: set<Path>
    ghost var log: seq<Event>

    constructor (c: Content, existing: set<Path>)
      ensures View() == Start(c, existing)
    {
      file, files, removed, log := c, existing, {}, [];
    }

    ghost function View(): (w: World)
      reads this
    {
      World(file, None, files, removed, map[], log)
    }

    /** The checks of a setup change, before anything is made. */
    method Admit(rules: Rules, e: Edit) returns (stop: Option<Refusal>)
      requires !e.Toggle?
      ensures stop == Some(Stale) <==> rules.digest(file) != e.revision
      ensures stop == Some(Unloadable) <==> rules.digest(file) == e.revision && !Opens(rules, file, files)
      ensures stop == Some(Unacceptable) <==> Current(rules, e, file, files) && !e.accepts(file.doc)
      ensures stop == None <==> Welcome(rules, e, file, files)
      ensures stop == None <==> Admits(rules, e, file, files)
    {
      FilesOfDoc(file, files);
      if rules.digest(file) != e.revision {
        return Some(Stale);
      }
      if !Loads(rules, file, files) {
        return Some(Unloadable);
      }
      return if e.accepts(file.doc) then None else Some(Unacceptable);
    }

    /** The rest of it, with the secret file it mints made: validated, written, or given up. */
    method Settle(rules: Rules, e: Edit, luck: Luck) returns (r: Result<Content, Refusal>)
      requires !e.Toggle? && Welcome(rules, e, file, files) && Admits(rules, e, file, files)
      requires (Mints(e) ==> luck.minting.NewFile?) && (luck.minting.NewFile? ==> luck.minting.path !in files)
      modifies this
      ensures View() == Called(rules, old(View()), e, luck)
      ensures r.Ok? ==> r.value == file && |log| == |old(log)| + 1 && Allowed(rules, old(file), log[|old(log)|])
      ensures r.Ok? ==> file.Parsed? && Leaves(e, old(file).doc, file.doc, PathBy(luck.minting))
      ensures r.Err? ==> r.error in {NoSecretFile, NoSuchItem, Invalid, NoAdapter, WriteFailed}
      ensures r == Err(NoSecretFile) <==> Mints(e) && !luck.minting.written
      ensures r == Err(NoSuchItem) <==> (Mints(e) ==> luck.minting.written) && Refuses(e, old(file).doc)
      ensures r == Err(Invalid) <==>
        && (Mints(e) ==> luck.minting.written) && !Refuses(e, old(file).doc)
        && !Sound(rules, e, old(file).doc, PathBy(luck.minting), old(files) + MintedBy(e, luck.minting))
      ensures r == Err(NoAdapter) ==> !luck.adapters
      ensures r.Ok? || r == Err(WriteFailed) ==> luck.adapters && files == old(files) + MintedBy(e, luck.minting)
      ensures r.Ok? ==> luck.torn.None?
      ensures r == Err(WriteFailed) ==> luck.torn == Some(file)
      ensures r.Err? && !r.error.WriteFailed? ==> file == old(file) && log == old(log)
      ensures r.Err? && !r.error.WriteFailed? ==>
        || files == old(files)
        || (!luck.removes && luck.minting.NewFile? && files == old(files) + {luck.minting.path})
    {
      assert Doomed(View()) == {};
      ghost var later := files + MintedBy(e, luck.minting);
      if !Refuses(e, file.doc) {
        SoundExactly(rules, e, file.doc, PathBy(luck.minting), later);
      }
      var raw, seen := file, files;
      var secretFile := None;
      var prepared := false;
      if Mints(e) {
        files, removed := files + {luck.minting.path}, removed - {luck.minting.path};
        secretFile := Some(luck.minting.path);
      }
      var next := Edited(e, raw.doc, PathOf(secretFile));
      EditedExactly(e, raw.doc, PathBy(luck.minting));
      SamePath(e, raw.doc, luck.minting);
      assert files == later;
      if Mints(e) && !luck.minting.written {
        r := Err(NoSecretFile);
      } else if next.None? {
        r := Err(NoSuchItem);
      } else if !Loads(rules, Parsed(next.value), files) {
        r := Err(Invalid);
      } else if !luck.adapters {
        r := Err(NoAdapter);
      } else {
        prepared := true;
        log := log + [Event(e, secretFile, seen, Sight(files, {}), luck.torn)];
        if luck.torn.Some? {
          file := luck.torn.value;
          r := Err(WriteFailed);
        } else {
          file := Parsed(next.value);
          r := Ok(file);
        }
      }
      if r.Err? && secretFile.Some? && !prepared && luck.removes {
        files, removed := files - {secretFile.value}, removed + {secretFile.value};
      }
    }

    /** A setup change: an uninterrupted run of the steps, and what its caller is told. */
    method Change(rules: Rules, e: Edit, luck: Luck) returns (r: Result<Content, Refusal>)
      requires !e.Toggle? && (luck.minting.NewFile? ==> luck.minting.path !in files)
      modifies this
      ensures View() == Called(rules, old(View()), e, luck)
      ensures r.Ok? ==> r.value == file && |log| == |old(log)| + 1 && Allowed(rules, old(file), log[|old(log)|])
      ensures rules.digest(old(file)) != e.revision <==> r == Err(Stale)
      ensures r == Err(Unloadable) <==> rules.digest(old(file)) == e.revision && !Opens(rules, old(file), old(files))
      ensures r == Err(Unacceptable) <==> Current(rules, e, old(file), old(files)) && !e.accepts(old(file).doc)
      ensures r == Err(NoSecretFile) <==>
        Welcome(rules, e, old(file), old(files)) && Mints(e) && (luck.minting.NewFile? ==> !luck.minting.written)
      ensures r == Err(NoSuchItem) <==> Supplied(rules, e, old(file), old(files), luck) && Refuses(e, old(file).doc)
      ensures r == Err(Invalid) <==>
        && Supplied(rules, e, old(file), old(files), luck) && !Refuses(e, old(file).doc)
        && !Sound(rules, e, old(file).doc, PathBy(luck.minting), old(files) + MintedBy(e, luck.minting))
      ensures r == Err(NoAdapter) ==> !luck.adapters
      ensures r.Ok? || r == Err(WriteFailed) ==> luck.adapters && files == old(files) + MintedBy(e, luck.minting)
      ensures r.Ok? ==>
        luck.torn.None? && file.Parsed? && Leaves(e, old(file).doc, file.doc, PathBy(luck.minting))
      ensures r == Err(WriteFailed) ==> luck.torn == Some(file)
      ensures r.Err? && !r.error.WriteFailed? ==> file == old(file) && log == old(log)
      ensures r.Err? && !r.error.WriteFailed? ==>
        || files == old(files)
        || (!luck.removes && luck.minting.NewFile? && files == old(files) + {luck.minting.path})
    {
      var stop := Admit(rules, e);
      if stop.Some? {
        return Err(stop.value);
      }
      if Mints(e) && luck.minting.NoFile? {
        return Err(NoSecretFile);
      }
      r := Settle(rules, e, luck);
    }

    /** The deployment toggle: no revision, no load of the old content, no secret. */
    method SetDeploymentEnabled(rules: Rules, flip: Doc -> Option<string>, torn: Option<Content>)
      returns (r: Result<Content, Refusal>)
      modifies this
      ensures View() == Called(rules, old(View()), Toggle(flip), Luck(NoFile, true, torn, true))
      ensures r.Ok? ==> r.value == file && |log| == |old(log)| + 1 && Allowed(rules, old(file), log[|old(log)|])
      ensures r.Err? && !r.error.WriteFailed? ==> file == old(file) && log == old(log)
      ensures files == old(files) && removed == old(removed)
      ensures r == Err(NoSuchItem) <==> old(file).Garbage? || flip(old(file).doc).None?
      ensures r != Err(NoSuchItem) ==>
        var flipped := Doc(flip(old(file).doc).value, old(file).doc.credentials);
        && (r == Err(Invalid) <==> !(rules.valid(flipped) && KeyFilesIn(flipped, files)))
        && (r.Ok? ==> torn.None? && file == Parsed(flipped))
        && (r.Err? && r.error != Invalid ==> r.error == WriteFailed && torn == Some(file))
    {
      assert Doomed(View()) == {};
      if file.Garbage? {
        return Err(NoSuchItem);
      }
      var next := Edited(Toggle(flip), file.doc, "");
      EditedExactly(Toggle(flip), file.doc, "");
      if next.None? {
        return Err(NoSuchItem);
      }
      FilesOfDoc(Parsed(next.value), files);
      if !Loads(rules, Parsed(next.value), files) {
        return Err(Invalid);
      }
      log := log + [Event(Toggle(flip), None, files, Sight(files, {}), torn)];
      if torn.Some? {
        file := torn.value;
        r := Err(WriteFailed);
      } else {
        file := Parsed(next.value);
        r := Ok(file);
      }
    }
  }

  lemma {:induction false} ExecConcat(rules: Rules, w: World, r1: seq<Step>, r2: seq<Step>)
    ensures Exec(rules, w, r1 + r2) == Exec(rules, Exec(rules, w, r1), r2)
    decreases |r2|
  {
    if r2 == [] {
      assert r1 + r2 == r1;
    } else {
      assert (r1 + r2)[..|r1 + r2| - 1] == r1 + r2[..|r2| - 1];
      ExecConcat(rules, w, r1, r2[..|r2| - 1]);
    }
  }

  lemma ExecOne(rules: Rules, w: World, s: Step)
    ensures Exec(rules, w, [s]) == Apply(rules, w, s)
  {
    assert [s][..0] == [];
  }

  lemma ExecTwo(rules: Rules, w: World, s0: Step, s1: Step)
    ensures Exec(rules, w, [s0, s1]) == Apply(rules, Apply(rules, w, s0), s1)
  {
    ExecOne(rules, w, s0);
    assert [s0, s1][..1] == [s0];
  }

  /** The lock, the checks and the secret. */
  lemma CallBegins(rules: Rules, w: World, p: Proc, e: Edit, luck: Luck)
    requires w.holder.None? && p !in w.doomed && (luck.minting.NewFile? ==> luck.minting.path !in w.files)
    ensures var steps := Steps(p, e, luck);
            var n := if Mints(e) then 3 else 2;
            |steps| == n + 3 && Exec(rules, w, steps[..n]) ==
              if !Admits(rules, e, w.file, w.files) || (Mints(e) && luck.minting.NoFile?) then w
              else if !Mints(e) then w.(holder := Some((p, Checked(e, w.file, w.files))))
              else
                var path := luck.minting.path;
                w.(holder := Some((p, Minted(e, w.file, w.files, path))),
                   files := w.files + {path}, removed := w.removed - {path})
  {
    var steps := Steps(p, e, luck);
    assert steps[..2] == [Acquire(p, e), Check(p)];
    ExecTwo(rules, w, steps[0], steps[1]);
    if Mints(e) {
      ExecOne(rules, Exec(rules, w, steps[..2]), steps[2]);
      ExecConcat(rules, w, steps[..2], [steps[2]]);
      assert steps[..3] == steps[..2] + [steps[2]];
    }
  }

  /** Validation, the write and the removal, from there. */
  lemma CallEnds(rules: Rules, w: World, p: Proc, e: Edit, luck: Luck, v: World)
    requires w.holder.None? && p !in w.doomed && (luck.minting.NewFile? ==> luck.minting.path !in w.files)
    requires Admits(rules, e, w.file, w.files) && (Mints(e) ==> luck.minting.NewFile?)
    requires if Mints(e) then
               v == w.(holder := Some((p, Minted(e, w.file, w.files, luck.minting.path))),
                       files := w.files + {luck.minting.path}, removed := w.removed - {luck.minting.path})
             else v == w.(holder := Some((p, Checked(e, w.file, w.files))))
    ensures var steps := Steps(p, e, luck);
            var n := |steps|;
            Apply(rules, Apply(rules, Apply(rules, v, steps[n - 3]), steps[n - 2]), steps[n - 1]) ==
            Called(rules, w, e, luck)
  {
    var steps := Steps(p, e, luck);
    var u := Apply(rules, v, steps[|steps| - 3]);
    assert Doomed(v) == Doomed(w);
    if u.holder.None? && Mints(e) {
      assert u.doomed - {p} == w.doomed;
    }
  }

  /** A call nothing interleaves with is a run of the steps. */
  lemma CallIsRun(rules: Rules, w: World, p: Proc, e: Edit, luck: Luck)
    requires w.holder.None? && p !in w.doomed && (luck.minting.NewFile? ==> luck.minting.path !in w.files)
    ensures Exec(rules, w, Steps(p, e, luck)) == Called(rules, w, e, luck)
  {
    var steps := Steps(p, e, luck);
    var n := |steps|;
    CallBegins(rules, w, p, e, luck);
    var v := Exec(rules, w, steps[..n - 3]);
    ExecOne(rules, v, steps[n - 3]);
    var u := Apply(rules, v, steps[n - 3]);
    ExecTwo(rules, u, steps[n - 2], steps[n - 1]);
    ExecConcat(rules, v, [steps[n - 3]], [steps[n - 2], steps[n - 1]]);
    ExecConcat(rules, w, steps[..n - 3], [steps[n - 3]] + [steps[n - 2], steps[n - 1]]);
    assert steps == steps[..n - 3] + ([steps[n - 3]] + [steps[n - 2], steps[n - 1]]);
    if v != w {
      CallEnds(rules, w, p, e, luck, v);
    }
  }

  // ---- runs that break the promise -------------------------------------------

  const LAX: Rules := Rules(d => true, c => "r")

  const BARE: Content := Parsed(Doc("", map[]))

  function Adding(oauth: bool, origin: Origin): Edit {
    SetCredential("r", d => true, "id", true, "p", oauth, origin)
  }

  /** Process 0 mints "s", is refused, and has released the lock but not yet removed it. */
  function Refused(oauth: bool): seq<Step> {
    [Acquire(0, Adding(oauth, Secret)), Check(0)] + [Mint(0, "s"), Settle(0, false)]
  }

  lemma RefusedDooms(oauth: bool)
    ensures Exec(LAX, Start(BARE, {}), Refused(oauth)) == World(BARE, None, {"s"}, {}, map[0 := "s"], [])
  {
    var w, r := Start(BARE, {}), Refused(oauth);
    ExecTwo(LAX, w, r[0], r[1]);
    var v := w.(holder := Some((0, Checked(Adding(oauth, Secret), BARE, {}))));
    assert Exec(LAX, w, [r[0], r[1]]) == v;
    ExecTwo(LAX, v, r[2], r[3]);
    ExecConcat(LAX, w, [r[0], r[1]], [r[2], r[3]]);
    assert r == [r[0], r[1]] + [r[2], r[3]];
  }

  /** Process 1's edit names the doomed file, is loaded with it and written. */
  lemma DoomedWritten(oauth: bool, w: World)
    requires w == World(BARE, None, {"s"}, {}, map[0 := "s"], [])
    ensures var v := Called(LAX, w, Adding(oauth, FileRef("s")), Luck(NoFile, true, None, true));
            v == w.(file := v.file, log := v.log) && "s" in FilesOf(v.file, oauth)
  {
    var v := Called(LAX, w, Adding(oauth, FileRef("s")), Luck(NoFile, true, None, true));
    assert KeyFiles(BARE) == {};
    var d := Edited(Adding(oauth, FileRef("s")), BARE.doc, "").value;
    assert d.credentials["id"].source == if oauth then OAuthFile("s") else KeyFile("s");
    assert KeyFiles(Parsed(d)) <= {"s"};
    assert v.file == Parsed(d) && NamesFile(d.credentials["id"].source, oauth);
  }

  /**
   * No crash and no tear: a change is refused and unlocks, another names its secret file and
   * is written, and only then is the file removed. The configuration names a file that is
   * gone, as a key file or as an OAuth store.
   */
  lemma RemovedFileNamed(oauth: bool) returns (run: seq<Step>)
    ensures var w := Exec(LAX, Start(BARE, {}), run);
            "s" in w.removed && "s" in FilesOf(w.file, oauth) && forall ev | ev in w.log :: ev.torn.None?
  {
    var e, luck := Adding(oauth, FileRef("s")), Luck(NoFile, true, None, true);
    var second := Steps(1, e, luck);
    run := Refused(oauth) + second + [Remove(0)];
    var w0 := Start(BARE, {});
    RefusedDooms(oauth);
    var w1 := Exec(LAX, w0, Refused(oauth));
    DoomedWritten(oauth, w1);
    CallIsRun(LAX, w1, 1, e, luck);
    ExecConcat(LAX, w0, Refused(oauth), second);
    var w2 := Exec(LAX, w0, Refused(oauth) + second);
    ExecConcat(LAX, w0, Refused(oauth) + second, [Remove(0)]);
    ExecOne(LAX, w2, Remove(0));
    assert w2.log[0].torn.None? && |w2.log| == 1;
  }

  /** A store minted and removed by one refused change, then named by the next one. */
  lemma RemovedStoreNamed() returns (w: World)
    ensures var luck := Luck(NewFile("s", true), false, None, true);
            var refused := Called(LAX, Start(BARE, {}), Adding(true, Secret), luck);
            w == Called(LAX, refused, Adding(true, FileRef("s")), Luck(NoFile, true, None, true))
    ensures "s" in w.removed && "s" in OAuthFiles(w.file)
  {
    var refused := Called(LAX, Start(BARE, {}), Adding(true, Secret), Luck(NewFile("s", true), false, None, true));
    assert KeyFiles(BARE) == {};
    assert refused == World(BARE, None, {}, {"s"}, map[], []);
    w := Called(LAX, refused, Adding(true, FileRef("s")), Luck(NoFile, true, None, true));
    var d := Edited(Adding(true, FileRef("s")), BARE.doc, "").value;
    assert KeyFiles(Parsed(d)) == {};
    assert w.file == Parsed(d) && d.credentials["id"].source == OAuthFile("s");
    assert NamesFile(d.credentials["id"].source, true);
  }
}
