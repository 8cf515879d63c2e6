/**
 * One run of `dorangctl update --deploy`, under any failure of any step. What the run
 * learns from Docker, the release index, the clock and the file system is a script
 * chosen outside; what it does to `.env` and its backup is what the statements are about.
 */
module DeployUpdate {
  import opened Wrappers
  import opened Text
  import opened EnvFile
  import opened Versions

  const REPOSITORY: string := "ghcr.io/ziozzang/dorang"

  // ---- release versions ------------------------------------------------------

  /** What stands before the first `-` or `+`. */
  function Core(s: string): string {
    if s == "" || s[0] == '-' || s[0] == '+' then "" else [s[0]] + Core(s[1..])
  }

  function Bare(v: string): string {
    var t := TrimSpace(v);
    if t != "" && t[0] == 'v' then t[1..] else t
  }

  /** v?N.N.N with an optional one-line suffix starting `-` or `+`. */
  predicate IsRelease(v: string) {
    var parts := Split(Core(Bare(v)), '.');
    && |parts| == 3 && (forall i | 0 <= i < 3 :: parts[i] != "" && AllDigits(parts[i]))
    && '\n' !in Bare(v)
  }

  function ReleaseFields(v: string): Version {
    if IsRelease(v) then Fields(Split(Core(Bare(v)), '.')) else []
  }

  function CompareReleases(a: string, b: string): int { Compare(ReleaseFields(a), ReleaseFields(b)) }

  predicate Number(s: string) { s != "" && AllDigits(s) }

  /** A suffix: nothing, or one line from a `-` or `+` on, without white space at its end. */
  predicate Suffix(s: string) {
    '\n' !in s && (s != "" ==> s[0] in "-+" && !IsSpace(s[|s| - 1]))
  }

  lemma {:induction false} CoreAt(core: string, t: string)
    requires '-' !in core && '+' !in core && (t != "" ==> t[0] in "-+")
    ensures Core(core + t) == core
  {
    if core == "" {
      assert core + t == t;
    } else {
      assert (core + t)[1..] == core[1..] + t;
      CoreAt(core[1..], t);
      assert core == [core[0]] + core[1..];
    }
  }

  lemma {:induction false} CoreOf(s: string) returns (t: string)
    ensures s == Core(s) + t && (t != "" ==> t[0] in "-+")
  {
    if s == "" || s[0] == '-' || s[0] == '+' {
      t := s;
    } else {
      t := CoreOf(s[1..]);
      assert s == [s[0]] + s[1..];
    }
  }

  /** A release: white space, a `v` or none, three numbers with dots between, a suffix, white space. */
  lemma ReleaseReads(l: string, marked: bool, parts: seq<string>, t: string, r: string)
    requires Spaces(l) && Spaces(r) && Suffix(t) && |parts| == 3 && forall i | 0 <= i < 3 :: Number(parts[i])
    ensures var v := l + ((if marked then "v" else "") + (Join(parts, '.') + t)) + r;
            IsRelease(v) && ReleaseFields(v) == [Field(parts[0]), Field(parts[1]), Field(parts[2])]
  {
    BareReads(l, marked, parts, t, r);
    CoreReads(parts, t);
    ThreeFields(parts);
  }

  lemma CoreReads(parts: seq<string>, t: string)
    requires Suffix(t) && |parts| == 3 && forall i | 0 <= i < 3 :: Number(parts[i])
    ensures Split(Core(Join(parts, '.') + t), '.') == parts
  {
    JoinedRun(parts);
    CoreAt(Join(parts, '.'), t);
    SplitJoin(parts, '.');
  }

  lemma BareReads(l: string, marked: bool, parts: seq<string>, t: string, r: string)
    requires Spaces(l) && Spaces(r) && Suffix(t) && |parts| == 3 && forall i | 0 <= i < 3 :: Number(parts[i])
    ensures Bare(l + ((if marked then "v" else "") + (Join(parts, '.') + t)) + r) == Join(parts, '.') + t
    ensures '\n' !in Join(parts, '.') + t
  {
    JoinedRun(parts);
    var core := Join(parts, '.');
    var bare := core + t;
    assert bare[|bare| - 1] == (if t == "" then core[|core| - 1] else t[|t| - 1]);
    BareOf(l, marked, bare, r);
  }

  lemma BareOf(l: string, marked: bool, bare: string, r: string)
    requires Spaces(l) && Spaces(r) && bare != "" && IsDigit(bare[0]) && !IsSpace(bare[|bare| - 1])
    ensures Bare(l + ((if marked then "v" else "") + bare) + r) == bare
  {
    var m := (if marked then "v" else "") + bare;
    assert m[|m| - 1] == bare[|bare| - 1];
    TrimExactly(l, m, r, IsSpace);
    assert m == if marked then ['v'] + bare else bare;
  }

  lemma ThreeFields(parts: seq<string>)
    requires |parts| == 3
    ensures Fields(parts) == [Field(parts[0]), Field(parts[1]), Field(parts[2])]
  {
    FieldsAt(parts, 0);
    FieldsAt(parts, 1);
    FieldsAt(parts, 2);
  }

  /** And every release is one of those. */
  lemma ReleaseParts(v: string) returns (l: string, marked: bool, parts: seq<string>, t: string, r: string)
    requires IsRelease(v)
    ensures Spaces(l) && Spaces(r) && Suffix(t) && |parts| == 3 && forall i | 0 <= i < 3 :: Number(parts[i])
    ensures v == l + ((if marked then "v" else "") + (Join(parts, '.') + t)) + r
  {
    l, r := TrimParts(v, IsSpace);
    TrimFacts(v, IsSpace);
    var m, bare := TrimSpace(v), Bare(v);
    marked := m != "" && m[0] == 'v';
    parts := Split(Core(bare), '.');
    t := CoreOf(bare);
    JoinSplit(Core(bare), '.');
    JoinedRun(parts);
    assert m == (if marked then "v" else "") + bare;
    assert t != "" ==> m[|m| - 1] == t[|t| - 1];
  }

  lemma ReleaseHasThree(v: string)
    requires IsRelease(v)
    ensures |ReleaseFields(v)| == 3
  {
    FieldsLength(Split(Core(Bare(v)), '.'));
  }

  /**
   * The version check at the end of a roll compares three numbers when a release is
   * wanted; when what is wanted is not a release it lets every build through that is not
   * one either.
   */
  lemma VersionCheck(got: string, want: string)
    ensures IsRelease(got) && IsRelease(want) ==>
              (CompareReleases(got, want) == 0 <==> ReleaseFields(got) == ReleaseFields(want))
    ensures !IsRelease(got) && !IsRelease(want) ==> CompareReleases(got, want) == 0
    ensures IsRelease(want) && !IsRelease(got) ==>
              (CompareReleases(got, want) == 0 <==> ReleaseFields(want) == [0, 0, 0])
    ensures IsRelease(got) && !IsRelease(want) ==>
              (CompareReleases(got, want) == 0 <==> ReleaseFields(got) == [0, 0, 0])
  {
    var a, b := ReleaseFields(got), ReleaseFields(want);
    CompareMeans(a, b);
    if IsRelease(got) {
      ReleaseHasThree(got);
    }
    if IsRelease(want) {
      ReleaseHasThree(want);
    }
    if Same(a, b) {
      assert At(a, 0) == At(b, 0) && At(a, 1) == At(b, 1) && At(a, 2) == At(b, 2);
    }
    if (b == [0, 0, 0] && a == []) || (a == [0, 0, 0] && b == []) {
      assert forall i: nat :: At(a, i) == At(b, i);
    }
  }

  // ---- rolling the services --------------------------------------------------

  /** One turn of the health loop. */
  datatype Reading = Reading(now: int, healthy: bool, cancelled: bool)

  /** How `compose up`, the health checks and `dorang -version` went. */
  datatype RollScript = RollScript(up: bool, start: int, readings: seq<Reading>, version: Option<string>)

  datatype Health = Unasked | Good | Bad | Cancelled

  /** The last answer before the deadline; the readings end where the deadline passes. */
  function LastHealth(readings: seq<Reading>, deadline: int, last: Health): Health {
    if readings == [] || readings[0].now >= deadline then last
    else if readings[0].healthy then Good
    else if readings[0].cancelled then Cancelled
    else LastHealth(readings[1..], deadline, Bad)
  }

  predicate VersionReported(s: RollScript, want: string) {
    want == "" || (s.version.Some? && CompareReleases(TrimSpace(s.version.value), want) == 0)
  }

  predicate Rolls(s: RollScript, wait: int, want: string) {
    var h := LastHealth(s.readings, s.start + wait, Unasked);
    s.up && (h == Good || h == Unasked) && VersionReported(s, want)
  }

  method Roll(s: RollScript, wait: int, want: string) returns (ok: bool)
    ensures ok == Rolls(s, wait, want)
  {
    if !s.up {
      return false;
    }
    var deadline := s.start + wait;
    var last := Unasked;
    var i := 0;
    assert s.readings[0..] == s.readings;
    while i < |s.readings| && s.readings[i].now < deadline
      invariant 0 <= i <= |s.readings| && (last == Unasked || last == Bad)
      invariant LastHealth(s.readings, deadline, Unasked) == LastHealth(s.readings[i..], deadline, last)
      decreases |s.readings| - i
    {
      if s.readings[i].healthy {
        last := Good;
        break;
      }
      if s.readings[i].cancelled {
        return false;
      }
      assert s.readings[i..][1..] == s.readings[i + 1..];
      last := Bad;
      i := i + 1;
    }
    if last == Bad {
      return false;
    }
    if want == "" {
      return true;
    }
    if s.version.None? {
      return false;
    }
    return CompareReleases(TrimSpace(s.version.value), want) == 0;
  }

  /**
   * A roll that passes was answered healthy in time, or the deadline had already passed
   * before it asked once; so with no time to wait it passes unasked.
   */
  lemma HealthAsked(s: RollScript, wait: int, want: string)
    requires Rolls(s, wait, want)
    ensures LastHealth(s.readings, s.start + wait, Unasked) == Unasked
       <==> s.readings == [] || s.readings[0].now >= s.start + wait
    ensures s.readings != [] && s.readings[0].now < s.start + wait ==>
              exists i :: 0 <= i < |s.readings| && s.readings[i].healthy && s.readings[i].now < s.start + wait
  {
    HealthSource(s.readings, s.start + wait, Unasked);
  }

  lemma {:induction false} HealthSource(readings: seq<Reading>, deadline: int, last: Health)
    requires last == Unasked || last == Bad
    ensures LastHealth(readings, deadline, last) == Good ==>
              exists i :: 0 <= i < |readings| && readings[i].healthy && readings[i].now < deadline
    ensures LastHealth(readings, deadline, last) == Unasked <==>
              last == Unasked && (readings == [] || readings[0].now >= deadline)
  {
    if readings != [] && readings[0].now < deadline && !readings[0].healthy && !readings[0].cancelled {
      HealthSource(readings[1..], deadline, Bad);
      if i :| 0 <= i < |readings[1..]| && readings[1..][i].healthy && readings[1..][i].now < deadline {
        assert readings[i + 1].healthy && readings[i + 1].now < deadline;
      }
    }
  }

  /** Before any reading was taken in time. */
  predicate NeverAsked(readings: seq<Reading>, deadline: int) { readings == [] || readings[0].now >= deadline }

  /** The i-th reading is the first healthy one, and no reading up to it was late or found the run cancelled. */
  predicate HealthyAt(readings: seq<Reading>, deadline: int, i: nat) {
    && i < |readings| && readings[i].healthy
    && (forall j | 0 <= j <= i :: readings[j].now < deadline)
    && (forall j | 0 <= j < i :: !readings[j].healthy && !readings[j].cancelled)
  }

  ghost predicate HealthyInTime(readings: seq<Reading>, deadline: int) {
    exists i: nat :: HealthyAt(readings, deadline, i)
  }

  lemma {:induction false} HealthExactly(readings: seq<Reading>, deadline: int, last: Health)
    requires last == Unasked || last == Bad
    ensures LastHealth(readings, deadline, last) == Good <==> HealthyInTime(readings, deadline)
  {
    if readings != [] && readings[0].now < deadline {
      var rest := readings[1..];
      if readings[0].healthy {
        assert HealthyAt(readings, deadline, 0);
      } else if !readings[0].cancelled {
        HealthExactly(rest, deadline, Bad);
        HealthyLater(readings, deadline);
      }
    }
  }

  lemma HealthyLater(readings: seq<Reading>, deadline: int)
    requires readings != [] && readings[0].now < deadline && !readings[0].healthy && !readings[0].cancelled
    ensures HealthyInTime(readings, deadline) <==> HealthyInTime(readings[1..], deadline)
  {
    var rest := readings[1..];
    if i: nat :| HealthyAt(readings, deadline, i) {
      assert i > 0 && rest[i - 1] == readings[i];
      assert forall j | 0 <= j <= i - 1 :: rest[j] == readings[j + 1];
      assert HealthyAt(rest, deadline, i - 1);
    }
    if i: nat :| HealthyAt(rest, deadline, i) {
      assert rest[i] == readings[i + 1];
      assert forall j | 1 <= j <= i + 1 :: rest[j - 1] == readings[j];
      assert HealthyAt(readings, deadline, i + 1);
    }
  }

  /**
   * A roll passes exactly when the services came up, the gateway was healthy before the
   * deadline and before anything cancelled the wait, or was never asked in time, and, when
   * a version is wanted, it reported one with the same numbers.
   */
  lemma RollsExactly(s: RollScript, wait: int, want: string)
    ensures Rolls(s, wait, want) <==>
      && s.up
      && (NeverAsked(s.readings, s.start + wait) || HealthyInTime(s.readings, s.start + wait))
      && (want == "" || (s.version.Some? && Same(ReleaseFields(TrimSpace(s.version.value)), ReleaseFields(want))))
  {
    HealthExactly(s.readings, s.start + wait, Unasked);
    HealthSource(s.readings, s.start + wait, Unasked);
    if s.version.Some? {
      CompareMeans(ReleaseFields(TrimSpace(s.version.value)), ReleaseFields(want));
    }
  }

  // ---- the run ---------------------------------------------------------------

  /** A rewrite in place: it truncates, so a failure can leave any prefix. */
  datatype Write = Written | NotOpened | Torn(kept: nat)

  function After(was: string, next: string, w: Write): string {
    match w
    case Written => next
    case NotOpened => was
    case Torn(n) => next[..if n < |next| then n else |next|]
  }

  datatype Script = Script(
    services: nat, locked: bool, readable: bool, release: Option<string>,
    pulled: bool, migrated: bool, saved: Write, rewritten: Write, rolled: RollScript,
    restored: Write, rerolled: RollScript)

  datatype Ending =
    | NoServices | Busy | Unreadable | NotReleaseBased | NoRelease | Current
    | PullFailed | MigrateFailed | BackupFailed | RewriteFailed
    | RestoreFailed | RollbackUnhealthy | RolledBack | Updated

  /** The run got as far as touching `.env`. */
  predicate Touched(r: Ending) {
    r in {RewriteFailed, RestoreFailed, RollbackUnhealthy, RolledBack, Updated}
  }

  function NewVars(latest: string): map<string, string> {
    map[IMAGE := REPOSITORY + ":" + latest, VERSION := latest]
  }

  /** A variable as the text has it, or blank. */
  function Bound(text: string, k: string): string { if k in Parse(text) then Parse(text)[k] else "" }

  function ImageOf(text: string): string { Bound(text, IMAGE) }

  /** The run has services to update, the lock, and the text. */
  predicate Reached(s: Script) { s.services > 0 && s.locked && s.readable }

  /** And the text is release based and a release is known. */
  predicate Ready(text: string, s: Script) { Reached(s) && ImageOf(text) != "" && s.release.Some? }

  /** Only asked to check, or not newer, not named and not forced. */
  predicate UpToDate(text: string, tag: string, check: bool, force: bool, latest: string) {
    check || (tag == "" && !force && CompareReleases(latest, Bound(text, VERSION)) <= 0)
  }

  predicate Goes(text: string, tag: string, check: bool, force: bool, s: Script) {
    Ready(text, s) && !UpToDate(text, tag, check, force, s.release.value)
  }

  class Deployment {
    var env: string
    var backup: Option<string>
    const wait: int

    constructor (env: string, wait: int)
      ensures this.env == env && this.wait == wait && backup == None
    {
      this.env, this.wait, backup := env, wait, None;
    }

    method WriteInPlace(b: string, w: Write) returns (ok: bool)
      modifies this`env
      ensures env == After(old(env), b, w) && ok == w.Written?
      ensures w.Written? ==> env == b
      ensures w.NotOpened? ==> env == old(env)
      ensures w.Torn? ==> env <= b && |env| == if w.kept < |b| then w.kept else |b|
    {
      match w {
        case Written =>
          env := b;
          return true;
        case NotOpened =>
          return false;
        case Torn(n) =>
          env := b[..if n < |b| then n else |b|];
          return false;
      }
    }

    /** Everything before the backup: nothing is touched, and the run goes on exactly when nothing stops it. */
    method Prepare(tag: string, check: bool, force: bool, s: Script) returns (stop: Option<Ending>)
      ensures stop == Some(NoServices) <==> s.services == 0
      ensures stop == Some(Busy) <==> s.services > 0 && !s.locked
      ensures stop == Some(Unreadable) <==> s.services > 0 && s.locked && !s.readable
      ensures stop == Some(NotReleaseBased) <==> Reached(s) && ImageOf(env) == ""
      ensures stop == Some(NoRelease) <==> Reached(s) && ImageOf(env) != "" && s.release.None?
      ensures stop == Some(Current) <==> Ready(env, s) && UpToDate(env, tag, check, force, s.release.value)
      ensures stop == Some(PullFailed) <==> Goes(env, tag, check, force, s) && !s.pulled
      ensures stop == Some(MigrateFailed) <==> Goes(env, tag, check, force, s) && s.pulled && !s.migrated
      ensures stop == None <==> Goes(env, tag, check, force, s) && s.pulled && s.migrated
    {
      if s.services == 0 {
        return Some(NoServices);
      }
      if !s.locked {
        return Some(Busy);
      }
      if !s.readable {
        return Some(Unreadable);
      }
      var vars := ParseEnv(env);
      if IMAGE !in vars || vars[IMAGE] == "" {
        return Some(NotReleaseBased);
      }
      var current := if VERSION in vars then vars[VERSION] else "";
      if s.release.None? {
        return Some(NoRelease);
      }
      if check || (CompareReleases(s.release.value, current) <= 0 && tag == "" && !force) {
        return Some(Current);
      }
      if !s.pulled {
        return Some(PullFailed);
      }
      return if s.migrated then None else Some(MigrateFailed);
    }

    method Update(tag: string, check: bool, force: bool, s: Script) returns (r: Ending)
      modifies this
      // Before the backup nothing is touched, and `Current` is the only way out that is not a failure.
      ensures !Touched(r) ==> env == old(env)
      ensures !Touched(r) && r != BackupFailed ==> backup == old(backup)
      ensures r == Current <==> Ready(old(env), s) && UpToDate(old(env), tag, check, force, s.release.value)
      ensures r == BackupFailed || Touched(r) <==> Goes(old(env), tag, check, force, s) && s.pulled && s.migrated
      ensures r == BackupFailed ==> !s.saved.Written?
      // From the first rewrite on the backup holds the original bytes.
      ensures Touched(r) ==> backup == Some(old(env)) && s.saved.Written?
      // Success past the early exit: the new text is in place and the gateway reported it.
      ensures Touched(r) ==>
        (r == Updated <==> s.rewritten.Written? && Rolls(s.rolled, wait, "v" + s.release.value))
      ensures r == Updated ==> env == Edit(old(env), NewVars(s.release.value))
      // Rolled back: the original text is back, and came up.
      ensures r == RolledBack ==>
        env == old(env) && Rolls(s.rerolled, wait, "") && !Rolls(s.rolled, wait, "v" + s.release.value)
      ensures r == RollbackUnhealthy ==> env == old(env) && !Rolls(s.rerolled, wait, "")
      // A rewrite that fails is left as it fell; only the backup has the original.
      ensures Touched(r) ==> (r == RewriteFailed <==> !s.rewritten.Written?)
      ensures r == RewriteFailed ==> env == After(old(env), Edit(old(env), NewVars(s.release.value)), s.rewritten)
      ensures Touched(r) && s.rewritten.Written? && r != Updated ==> (r == RestoreFailed <==> !s.restored.Written?)
      ensures r == RestoreFailed ==> env == After(Edit(old(env), NewVars(s.release.value)), old(env), s.restored)
    {
      var raw := env;
      var stop := Prepare(tag, check, force, s);
      if stop.Some? {
        return stop.value;
      }
      if !s.saved.Written? {
        if s.saved.Torn? {
          backup := Some(After("", raw, s.saved));
        }
        return BackupFailed;
      }
      backup := Some(raw);
      r := Switch(raw, s.release.value, s);
    }

    /** With the backup made: the new text, the services with it, and back if they do not come up. */
    method Switch(raw: string, latest: string, s: Script) returns (r: Ending)
      requires env == raw
      modifies this`env
      ensures Touched(r)
      ensures r == RewriteFailed <==> !s.rewritten.Written?
      ensures r == RewriteFailed ==> env == After(raw, Edit(raw, NewVars(latest)), s.rewritten)
      ensures r == Updated <==> s.rewritten.Written? && Rolls(s.rolled, wait, "v" + latest)
      ensures r == Updated ==> env == Edit(raw, NewVars(latest))
      ensures s.rewritten.Written? && r != Updated ==> (r == RestoreFailed <==> !s.restored.Written?)
      ensures r == RestoreFailed ==> env == After(Edit(raw, NewVars(latest)), raw, s.restored)
      ensures r == RolledBack ==> env == raw && Rolls(s.rerolled, wait, "")
      ensures r == RollbackUnhealthy ==> env == raw && !Rolls(s.rerolled, wait, "")
    {
      var updated := SetEnv(raw, NewVars(latest));
      var wrote := WriteInPlace(updated, s.rewritten);
      if !wrote {
        return RewriteFailed;
      }
      var up := Roll(s.rolled, wait, "v" + latest);
      if !up {
        r := RollBack(raw, s);
        return;
      }
      return Updated;
    }

    /** The failed roll's way out: the original text again, and the services with it. */
    method RollBack(raw: string, s: Script) returns (r: Ending)
      modifies this`env
      ensures env == After(old(env), raw, s.restored)
      ensures r == if !s.restored.Written? then RestoreFailed
                   else if Rolls(s.rerolled, wait, "") then RolledBack else RollbackUnhealthy
    {
      var put := WriteInPlace(raw, s.restored);
      if !put {
        return RestoreFailed;
      }
      var back := Roll(s.rerolled, wait, "");
      if !back {
        return RollbackUnhealthy;
      }
      return RolledBack;
    }
  }

  /**
   * The text a successful update leaves reads as the old one with the two keys moved to
   * the release, exactly when the release name is clean.
   */
  lemma UpdatedReads(raw: string, latest: string)
    requires '\n' !in latest
    ensures Parse(Edit(raw, NewVars(latest))) == Parse(raw) + NewVars(latest)
       <==> Clean(REPOSITORY + ":" + latest) == REPOSITORY + ":" + latest && Clean(latest) == latest
  {
    assert '\n' !in REPOSITORY;
    EditReadsExactly(raw, REPOSITORY + ":" + latest, latest);
  }
}
