/** The one-time import of a checkout's private profile into a shared one: published in an order that
    survives a crash at any point, stamped with an injective fingerprint of its source. */
module LegacyImport {
  import opened Options

  newtype byte = x: int | 0 <= x < 256
  type Bytes = seq<byte>

  // ----- the fingerprint -----

  /** A file of the source: its relative name and its content. */
  datatype Item = Item(name: Bytes, content: Bytes)

  const LENGTHS: int := 0x1_0000_0000_0000_0000

  /** `n.to_bytes(k)`, big-endian. */
  function ToBytes(n: nat, k: nat): (r: Bytes)
    ensures |r| == k
  {
    if k == 0 then [] else ToBytes(n / 256, k - 1) + [(n % 256) as byte]
  }

  function FromBytes(s: Bytes): nat {
    if s == [] then 0 else FromBytes(s[..|s| - 1]) * 256 + s[|s| - 1] as int
  }

  function Power(k: nat): nat { if k == 0 then 1 else 256 * Power(k - 1) }

  lemma {:induction false} BytesRoundTrip(n: nat, k: nat)
    requires n < Power(k)
    ensures FromBytes(ToBytes(n, k)) == n
  {
    if k > 0 {
      BytesRoundTrip(n / 256, k - 1);
      assert ToBytes(n, k)[..k - 1] == ToBytes(n / 256, k - 1);
    }
  }

  /** Python refuses a length that does not fit in eight bytes. */
  predicate Encodable(files: seq<Item>) {
    forall f | f in files :: |f.name| < LENGTHS && |f.content| < LENGTHS
  }

  function EncodeItem(f: Item): Bytes {
    ToBytes(|f.name|, 8) + f.name + (ToBytes(|f.content|, 8) + f.content)
  }

  /** Everything the digest is fed, in order. */
  function Encode(files: seq<Item>): Bytes {
    if files == [] then [] else EncodeItem(files[0]) + Encode(files[1..])
  }

  lemma LengthFits(n: nat)
    requires n < LENGTHS
    ensures FromBytes(ToBytes(n, 8)) == n
  {
    assert Power(8) == LENGTHS by {
      assert Power(4) == 0x1_0000_0000 && Power(8) == 256 * 256 * 256 * 256 * Power(4);
    }
    BytesRoundTrip(n, 8);
  }

  /** A field with its length in front can be told from whatever follows it. */
  lemma FieldSplits(a: Bytes, s: Bytes, b: Bytes, t: Bytes)
    requires |a| < LENGTHS && |b| < LENGTHS
    requires ToBytes(|a|, 8) + a + s == ToBytes(|b|, 8) + b + t
    ensures a == b && s == t
  {
    Slices(ToBytes(|a|, 8), a, s);
    Slices(ToBytes(|b|, 8), b, t);
    LengthFits(|a|);
    LengthFits(|b|);
  }

  lemma Slices(h: Bytes, a: Bytes, s: Bytes)
    ensures (h + a + s)[..|h|] == h && (h + a + s)[|h|..|h| + |a|] == a
    ensures (h + a + s)[|h| + |a|..] == s
  {
  }

  lemma EncodeEmpty(files: seq<Item>)
    ensures Encode(files) == [] <==> files == []
  {
    if files != [] { assert |EncodeItem(files[0])| >= 16; }
  }

  /** Different lists of named files never feed the digest the same bytes. */
  lemma {:induction false} EncodeInjective(a: seq<Item>, b: seq<Item>)
    requires Encodable(a) && Encodable(b) && Encode(a) == Encode(b)
    ensures a == b
  {
    EncodeEmpty(a);
    EncodeEmpty(b);
    if a != [] {
      var f, g := a[0], b[0];
      var (s, t) := (Encode(a[1..]), Encode(b[1..]));
      Fields(f, s);
      Fields(g, t);
      FieldSplits(f.name, ToBytes(|f.content|, 8) + f.content + s,
                  g.name, ToBytes(|g.content|, 8) + g.content + t);
      FieldSplits(f.content, s, g.content, t);
      EncodeInjective(a[1..], b[1..]);
      assert a == [f] + a[1..] && b == [g] + b[1..];
    }
  }

  lemma Fields(f: Item, s: Bytes)
    ensures EncodeItem(f) + s
              == ToBytes(|f.name|, 8) + f.name + (ToBytes(|f.content|, 8) + f.content + s)
  {
  }

  /** `_source_fingerprint`: the digest is updated file by file. */
  method Fingerprint(files: seq<Item>, digest: Bytes -> string) returns (r: string)
    ensures r == digest(Encode(files))
  {
    var fed: Bytes := [];
    for i := 0 to |files|
      invariant fed + Encode(files[i..]) == Encode(files)
    {
      var f := files[i];
      assert files[i..][0] == f && files[i..][1..] == files[i + 1..];
      fed := fed + (ToBytes(|f.name|, 8) + f.name + (ToBytes(|f.content|, 8) + f.content));
    }
    assert fed + [] == fed;
    return digest(fed);
  }

  // ----- the directories -----

  /** What is at a path; `linked` says that a folder has a symbolic link or a special file in it, and
      a stamp is the provenance record, with no fingerprint when it is not valid. */
  datatype Node = Absent | Link | Other | File(data: Bytes)
                | Folder(files: seq<Item>, linked: bool) | Stamp(fingerprint: Option<string>)

  datatype Slot = Env | State | Provenance

  /** The three places of a profile. */
  datatype Profile = Profile(env: Node, state: Node, provenance: Node)

  const EMPTY := Profile(Absent, Absent, Absent)

  /** The checkout's own profile, and whether it is the shared one itself. */
  datatype Legacy = Legacy(same: bool, env: Node, state: Node)

  type Values = map<string, string>

  /** Readers of foreign formats; None is an error. */
  datatype Readers = Readers(
    managed: Bytes -> Option<Values>, identity: Node -> Option<Values>, digest: Bytes -> string)

  datatype ImportError = Linked | Incomplete | NotManaged | BadSource | BadRecord | BadIdentity
                       | Conflict | Stopped

  const NAME_ENV: Bytes := [46, 101, 110, 118]

  function FilesOf(legacy: Legacy): seq<Item>
    requires legacy.env.File?
  {
    [Item(NAME_ENV, legacy.env.data)] + if legacy.state.Folder? then legacy.state.files else []
  }

  predicate Readable(legacy: Legacy) {
    legacy.env.File? && (legacy.state.Absent? || (legacy.state.Folder? && !legacy.state.linked))
  }

  /** The complete result of an import. */
  function Full(legacy: Legacy, readers: Readers): Profile
    requires legacy.env.File?
  {
    Profile(legacy.env, legacy.state, Stamp(Some(readers.digest(Encode(FilesOf(legacy))))))
  }

  /** Nothing yet, the state, the state and its provenance, everything. */
  predicate Stage(p: Profile, full: Profile) {
    p == EMPTY || p == EMPTY.(state := full.state) || p == full.(env := Absent) || p == full
  }

  predicate Managed(env: Node, readers: Readers) { env.File? && readers.managed(env.data).Some? }

  predicate Configured(p: Profile, readers: Readers) {
    Managed(p.env, readers) && !p.state.Link? && !p.provenance.Link?
  }

  /** A readable checkout and a configured profile that is not its own. */
  predicate Comparable(legacy: Legacy, p: Profile, readers: Readers) {
    !legacy.same && Readable(legacy) && Managed(legacy.env, readers) && Configured(p, readers)
  }

  predicate Recorded(provenance: Node) {
    provenance.Absent? || (provenance.Stamp? && provenance.fingerprint.Some?)
  }

  /** Nothing to do, and done. */
  predicate Left(r: Result<bool, ImportError>) { r.Ok? && !r.value }
  predicate Imported(r: Result<bool, ImportError>) { r.Ok? && r.value }

  predicate Agree(a: Values, b: Values, keys: set<string>) {
    forall k | k in keys && k in a && k in b :: a[k] == b[k]
  }

  // ----- crashes -----

  /** A directory whose last changes may not be on disk yet: after a crash any of them may be. */
  function AfterCrash(durable: Profile, visible: Profile, kept: set<Slot>): Profile {
    Profile(if Env in kept then visible.env else durable.env,
            if State in kept then visible.state else durable.state,
            if Provenance in kept then visible.provenance else durable.provenance)
  }

  /** Whatever of the changes survives a crash, it is one of the stages. */
  ghost predicate CrashSafe(durable: Profile, visible: Profile, full: Profile) {
    forall kept: set<Slot> :: Stage(AfterCrash(durable, visible, kept), full)
  }

  class SharedProfile {
    var visible: Profile
    var durable: Profile

    constructor (p: Profile)
      ensures visible == durable == p
    {
      visible, durable := p, p;
    }

    method Crash(kept: set<Slot>)
      modifies this
      ensures visible == durable == AfterCrash(old(durable), old(visible), kept)
    {
      visible := AfterCrash(durable, visible, kept);
      durable := visible;
    }

    /** Renames and syncs the three parts in order; stops before effect number `stops`. */
    method Publish(full: Profile, stops: nat) returns (ok: bool)
      requires visible == durable == EMPTY && full.env.File? && full.provenance.Stamp?
      modifies this
      ensures Stage(visible, full) && CrashSafe(durable, visible, full)
      ensures ok ==> visible == durable == full
      ensures stops >= 6 ==> ok
    {
      if stops == 0 { return false; }
      if !full.state.Absent? {
        visible := visible.(state := full.state);
        if stops == 1 { return false; }
        durable := visible;
      }
      if stops <= 2 { return false; }
      visible := visible.(provenance := full.provenance);
      if stops == 3 { return false; }
      durable := visible;
      if stops == 4 { return false; }
      visible := visible.(env := full.env);
      if stops == 5 { return false; }
      durable := visible;
      return true;
    }

    /** `migrate_legacy`; stopping covers a crash and an error of the file system alike. */
    method Migrate(legacy: Legacy, readers: Readers, persisted: set<string>, stops: nat)
        returns (r: Result<bool, ImportError>)
      requires visible == durable
      modifies this
      // What exists is never replaced, and an error before publication changes nothing.
      ensures old(visible) != EMPTY || Left(r) || (r.Err? && !r.error.Stopped?) ==>
        visible == durable == old(visible)
      // A partial import is refused.
      ensures !legacy.same && old(visible).env.Absent? && old(visible) != EMPTY ==> r.Err?
      // Only a readable source is published, completely or up to some stage.
      ensures Imported(r) || (r.Err? && r.error.Stopped?) ==>
        old(visible) == EMPTY && Readable(legacy) && Stage(visible, Full(legacy, readers)) &&
        CrashSafe(durable, visible, Full(legacy, readers))
      ensures Imported(r) ==> visible == durable == Full(legacy, readers)
      // A good source is imported into an empty profile, unless it is stopped on the way.
      ensures !legacy.same && old(visible) == EMPTY && Readable(legacy) && Managed(legacy.env, readers) ==>
        Imported(r) || (r.Err? && r.error.Stopped? && stops < 6)
      ensures old(visible) == EMPTY && (legacy.same || legacy.env.Absent?) ==> Left(r)
      // A configured profile is accepted exactly when it came from this source or agrees with it.
      ensures Comparable(legacy, old(visible), readers) ==>
        (Left(r) <==>
          old(visible).provenance == Full(legacy, readers).provenance ||
          (Recorded(old(visible).provenance) && Compatible(legacy, old(visible), readers, persisted)))
    {
      if legacy.same { return Ok(false); }
      if visible.env.Link? || visible.state.Link? || visible.provenance.Link? { return Err(Linked); }
      if visible.env.Absent? && (!visible.state.Absent? || !visible.provenance.Absent?) {
        return Err(Incomplete);
      }
      var shared: Option<Values> := None;
      if !visible.env.Absent? {
        if !visible.env.File? || readers.managed(visible.env.data).None? { return Err(NotManaged); }
        shared := readers.managed(visible.env.data);
      }
      if legacy.env.Absent? { return Ok(false); }
      if !legacy.env.File? || readers.managed(legacy.env.data).None? { return Err(NotManaged); }
      var own := readers.managed(legacy.env.data).value;
      if !legacy.state.Absent? && (!legacy.state.Folder? || legacy.state.linked) { return Err(BadSource); }
      var fingerprint := Fingerprint(FilesOf(legacy), readers.digest);
      if shared.Some? {
        var previous: Option<string> := None;
        if !visible.provenance.Absent? {
          if !visible.provenance.Stamp? || visible.provenance.fingerprint.None? { return Err(BadRecord); }
          previous := visible.provenance.fingerprint;
        }
        if previous == Some(fingerprint) { return Ok(false); }
        var mine, theirs := readers.identity(legacy.state), readers.identity(visible.state);
        if mine.None? || theirs.None? { return Err(BadIdentity); }
        if !Agree(own, shared.value, persisted) || !Agree(mine.value, theirs.value, IDENTITY) {
          return Err(Conflict);
        }
        return Ok(false);
      }
      var full := Profile(legacy.env, legacy.state, Stamp(Some(fingerprint)));
      var ok := Publish(full, stops);
      if !ok { return Err(Stopped); }
      return Ok(true);
    }
  }

  const IDENTITY: set<string> := {"instance_id", "project_id", "app_id"}

  /** The two profiles name the same persisted environment, as far as both say. */
  predicate Compatible(legacy: Legacy, p: Profile, readers: Readers, persisted: set<string>)
    requires legacy.env.File? && p.env.File?
  {
    readers.managed(legacy.env.data).Some? && readers.managed(p.env.data).Some? &&
    readers.identity(legacy.state).Some? && readers.identity(p.state).Some? &&
    Agree(readers.managed(legacy.env.data).value, readers.managed(p.env.data).value, persisted) &&
    Agree(readers.identity(legacy.state).value, readers.identity(p.state).value, IDENTITY)
  }

  // ----- an import, a crash, and the next run -----

  datatype Rerun = Complete | Refused | FromScratch

  /** Import into an empty profile, crash anywhere with any part of the unsynced changes kept, and run
      again: a configuration that is there is complete with its state and provenance and is left
      alone; a partial import is refused and left alone; otherwise nothing had happened. */
  method ImportCrashRerun(legacy: Legacy, readers: Readers, persisted: set<string>, stops: nat,
                          kept: set<Slot>) returns (outcome: Rerun, p: SharedProfile)
    requires !legacy.same && Readable(legacy) && readers.managed(legacy.env.data).Some?
    ensures fresh(p) && Stage(p.visible, Full(legacy, readers))
    ensures outcome.Complete? <==> p.visible.env.File?
    ensures outcome.Complete? ==> p.visible == p.durable == Full(legacy, readers)
    ensures outcome.Refused? ==> p.visible.env.Absent? && p.visible != EMPTY
    ensures outcome.FromScratch? ==> p.visible == EMPTY
  {
    p := new SharedProfile(EMPTY);
    var first := p.Migrate(legacy, readers, persisted, stops);
    ghost var (durable, visible) := (p.durable, p.visible);
    assert Stage(AfterCrash(durable, visible, kept), Full(legacy, readers));
    p.Crash(kept);
    if p.visible == EMPTY { return FromScratch, p; }
    var second := p.Migrate(legacy, readers, persisted, 6);
    if second.Ok? { return Complete, p; }
    return Refused, p;
  }
}
