/** Keeping the trust file through failures (`podctl/src/trust.rs`): a command loads the registry, changes it,
    writes a temporary file, syncs it, renames it over the trust file and syncs the directory.  Any of these
    may fail, the process may be killed at any of them, and the machine may lose power between commands.
 */
module TrustStore {
  import opened Options
  import opened TrustText
  import opened Trust
  import opened TrustLaws

  /** A file's text, and whether its data has reached the disk. */
  datatype File = File(text: string, synced: bool)

  /** `settled` is the trust file as of the last time the directory was synced and `pending` the files renamed into
      its place since, of which a loss of power may leave any; `draft` is a temporary file left behind. */
  datatype Disk = Disk(settled: Option<File>, pending: seq<File>, draft: Option<File>)

  function TextOf(file: Option<File>): Option<string> {
    if file.Some? then Some(file.value.text) else None
  }

  /** The trust file as programs see it. */
  function Visible(d: Disk): Option<string> {
    if d.pending != [] then Some(d.pending[|d.pending| - 1].text) else TextOf(d.settled)
  }

  /** A disk that holds a trust file, or none, with nothing left to sync. */
  function Resting(original: Option<string>): Disk {
    Disk(if original.Some? then Some(File(original.value, true)) else None, [], None)
  }

  datatype Stage = Loading | Creating | Writing | SyncingFile | Renaming | SyncingParent

  /** The stage at which a call fails or the process is killed, and how much of the text was written. */
  datatype Fault = NoFault | Fails(stage: Stage, written: nat) | Killed(stage: Stage, written: nat)

  datatype Outcome = Done | Failed | Dead

  predicate At(fault: Fault, stage: Stage) {
    !fault.NoFault? && fault.stage == stage
  }

  function Stopped(fault: Fault): Outcome {
    if fault.Fails? then Failed else Dead
  }

  /** Dropping the temporary file removes it, unless the process is gone. */
  function Left(fault: Fault, draft: File): Option<File> {
    if fault.Fails? then None else Some(draft)
  }

  function Prefix(text: string, n: nat): string {
    if n <= |text| then text[..n] else text
  }

  /** What persisting leaves: nothing visible changes before the rename, and after it only the directory may
      still have to be synced. */
  function Persisted(d: Disk, text: string, fault: Fault): (Disk, Outcome) {
    if At(fault, Creating) then (d, Stopped(fault))
    else if At(fault, Writing) then (d.(draft := Left(fault, File(Prefix(text, fault.written), false))), Stopped(fault))
    else if At(fault, SyncingFile) then (d.(draft := Left(fault, File(text, false))), Stopped(fault))
    else if At(fault, Renaming) then (d.(draft := Left(fault, File(text, true))), Stopped(fault))
    else if At(fault, SyncingParent) then (Disk(d.settled, d.pending + [File(text, true)], None), Stopped(fault))
    else (Disk(Some(File(text, true)), [], None), Done)
  }

  datatype Command = Insert(id: ProxyIdentity) | Replace(id: ProxyIdentity) | Remove(url: string)

  function Load(canon: Canon, visible: Option<string>): Result<Registry> {
    if visible.None? then Ok(EMPTY) else Parsed(canon, visible.value)
  }

  function Update(canon: Canon, r: Registry, command: Command): Result<Registry> {
    match command
    case Insert(id) => Inserted(r, id)
    case Replace(id) => Replaced(r, id)
    case Remove(url) =>
      var origin := canon(url);
      if origin.None? then Err(InvalidProxyOrigin(url)) else Ok(r.(proxies := r.proxies - {origin.value}))
  }

  /** The registry a command wants on disk, if it has something to write. */
  function Wanted(canon: Canon, visible: Option<string>, command: Command): Option<Registry> {
    var loaded := Load(canon, visible);
    if loaded.Err? then None
    else
      var next := Update(canon, loaded.value, command);
      if next.Err? || (command.Remove? && next.value == loaded.value) then None else Some(next.value)
  }

  /** A removal that finds nothing to remove reports success without writing. */
  predicate NothingToRemove(canon: Canon, visible: Option<string>, command: Command) {
    var loaded := Load(canon, visible);
    command.Remove? && loaded.Ok? && canon(command.url).Some? && canon(command.url).value !in loaded.value.proxies
  }

  ghost predicate Writes(canon: Canon, d: Disk, command: Command, fault: Fault) {
    !At(fault, Loading) && Wanted(canon, Visible(d), command).Some?
    && |Text(Wanted(canon, Visible(d), command).value)| <= MAX_TRUST_FILE_BYTES
  }

  ghost function Commanded(canon: Canon, d: Disk, command: Command, fault: Fault): (Disk, Outcome) {
    if At(fault, Loading) then (d, Stopped(fault))
    else if Writes(canon, d, command, fault) then Persisted(d, Text(Wanted(canon, Visible(d), command).value), fault)
    else (d, if NothingToRemove(canon, Visible(d), command) then Done else Failed)
  }

  /** Commands carry identities that `TrustedProxyIdentity::new` built. */
  predicate WellFormed(canon: Canon, command: Command) {
    !command.Remove? ==> ValidProxy(canon, command.id.origin, command.id)
  }

  class TrustFile {
    var disk: Disk

    constructor (disk: Disk)
      ensures this.disk == disk
    {
      this.disk := disk;
    }

    /** `persist_registry_with_io` after the size check. */
    method Persist(text: string, fault: Fault) returns (outcome: Outcome)
      modifies this
      ensures (disk, outcome) == Persisted(old(disk), text, fault)
    {
      if At(fault, Creating) {
        return Stopped(fault);
      }
      var draft := File("", false);
      if At(fault, Writing) {
        disk := disk.(draft := Left(fault, draft.(text := Prefix(text, fault.written))));
        return Stopped(fault);
      }
      draft := draft.(text := text);
      if At(fault, SyncingFile) {
        disk := disk.(draft := Left(fault, draft));
        return Stopped(fault);
      }
      draft := draft.(synced := true);
      if At(fault, Renaming) {
        disk := disk.(draft := Left(fault, draft));
        return Stopped(fault);
      }
      disk := disk.(pending := disk.pending + [draft], draft := None);
      if At(fault, SyncingParent) {
        return Stopped(fault);
      }
      disk := disk.(settled := Some(disk.pending[|disk.pending| - 1]), pending := []);
      outcome := Done;
    }

    /** `load_registry_with_io`, `store_proxy_trust` and `remove_proxy_trust`. */
    method Execute(canon: Canon, command: Command, fault: Fault) returns (outcome: Outcome)
      requires SoundCanon(canon) && WellFormed(canon, command)
      modifies this
      ensures (disk, outcome) == Commanded(canon, old(disk), command, fault)
    {
      hide SoundCanon, WellFormed, Load, Update, Persisted, Text;
      if At(fault, Loading) {
        return Stopped(fault);
      }
      var registry := new TrustRegistry();
      var unreadable := ReadInto(registry, canon, Visible(disk));
      if unreadable {
        return Failed;
      }
      ghost var loaded := registry.Contents();
      var change := Apply(registry, canon, command);
      if change.Refused? {
        return Failed;
      }
      if change.Idle? {
        return Done;
      }
      assert Wanted(canon, Visible(disk), command) == Some(registry.Contents());
      var text := registry.ToCanonicalString();
      ByteLengthOfText(canon, Visible(disk), command);
      if ByteLength(text) > MAX_TRUST_FILE_BYTES {
        return Failed;
      }
      outcome := Persist(text, fault);
    }
  }

  method ReadInto(registry: TrustRegistry, canon: Canon, visible: Option<string>) returns (failed: bool)
    requires registry.Contents() == EMPTY
    modifies registry
    ensures failed <==> Load(canon, visible).Err?
    ensures !failed ==> Load(canon, visible) == Ok(registry.Contents())
  {
    hide Parsed;
    failed := false;
    if visible.Some? {
      var error := registry.Parse(canon, visible.value);
      failed := error.Some?;
    }
  }

  datatype Change = Refused | Idle | Changed

  method Apply(registry: TrustRegistry, canon: Canon, command: Command) returns (change: Change)
    modifies registry
    ensures change.Refused? <==> Update(canon, old(registry.Contents()), command).Err?
    ensures !change.Refused? ==> Update(canon, old(registry.Contents()), command) == Ok(registry.Contents())
    ensures change.Idle? <==>
            command.Remove? && canon(command.url).Some? && canon(command.url).value !in old(registry.proxies)
    ensures command.Remove? && !change.Refused? ==> (change.Idle? <==> registry.Contents() == old(registry.Contents()))
  {
    match command {
      case Insert(id) =>
        var refused := registry.InsertProxy(id);
        change := if refused.Some? then Refused else Changed;
      case Replace(id) =>
        var refused, _ := registry.ReplaceProxy(id);
        change := if refused.Some? then Refused else Changed;
      case Remove(url) =>
        var origin := canon(url);
        if origin.None? {
          return Refused;
        }
        var removed := registry.RemoveProxy(origin.value);
        change := if removed.Some? then Changed else Idle;
        assert origin.value !in registry.proxies;
        assert removed.None? ==> registry.proxies == old(registry.proxies);
    }
  }

  // ---- what a command wants is valid ----

  lemma LoadIsValid(canon: Canon, visible: Option<string>)
    requires SoundCanon(canon) && Load(canon, visible).Ok?
    ensures ValidRegistry(canon, Load(canon, visible).value)
  {
    hide SoundCanon, Parsed, ValidRegistry;
    EmptyIsValid(canon);
    if visible.Some? {
      ParsedIsValid(canon, visible.value);
    }
  }

  lemma WithProxyIsValid(canon: Canon, r: Registry, id: ProxyIdentity)
    requires ValidRegistry(canon, r) && ValidProxy(canon, id.origin, id)
    requires id.origin in r.proxies || |r.proxies| < MAX_TRUSTED_PROXIES
    ensures ValidRegistry(canon, r.(proxies := r.proxies[id.origin := id]))
  {
    hide ValidProxy, ValidKey;
    var keys := r.proxies[id.origin := id].Keys;
    assert keys == r.proxies.Keys + {id.origin};
    assert id.origin in r.proxies ==> keys == r.proxies.Keys;
  }

  lemma WithoutProxyIsValid(canon: Canon, r: Registry, origin: string)
    requires ValidRegistry(canon, r)
    ensures ValidRegistry(canon, r.(proxies := r.proxies - {origin}))
  {
    hide ValidProxy, ValidKey;
    var rest := r.proxies - {origin};
    assert rest.Keys == r.proxies.Keys - {origin};
  }

  lemma UpdateKeepsValid(canon: Canon, r: Registry, command: Command)
    requires ValidRegistry(canon, r) && WellFormed(canon, command)
    ensures var next := Update(canon, r, command); next.Ok? ==> ValidRegistry(canon, next.value)
  {
    hide ValidProxy, ValidRegistry;
    if Update(canon, r, command).Ok? {
      match command
      case Insert(id) => WithProxyIsValid(canon, r, id);
      case Replace(id) => WithProxyIsValid(canon, r, id);
      case Remove(url) => WithoutProxyIsValid(canon, r, canon(url).value);
    }
  }

  lemma WantedIsValid(canon: Canon, visible: Option<string>, command: Command)
    requires SoundCanon(canon) && WellFormed(canon, command) && Wanted(canon, visible, command).Some?
    ensures ValidRegistry(canon, Wanted(canon, visible, command).value)
    ensures Load(canon, visible).Ok?
    ensures Update(canon, Load(canon, visible).value, command) == Ok(Wanted(canon, visible, command).value)
  {
    hide SoundCanon, ValidRegistry, Update, Load, WellFormed;
    LoadIsValid(canon, visible);
    UpdateKeepsValid(canon, Load(canon, visible).value, command);
  }

  lemma ByteLengthOfText(canon: Canon, visible: Option<string>, command: Command)
    requires SoundCanon(canon) && WellFormed(canon, command) && Wanted(canon, visible, command).Some?
    ensures var text := Text(Wanted(canon, visible, command).value); ByteLength(text) == |text|
  {
    hide SoundCanon, ValidRegistry, Wanted, Text;
    WantedIsValid(canon, visible, command);
    TextClean(canon, Wanted(canon, visible, command).value);
  }

  // ---- atomicity ----

  /** A file after a loss of power, cut short if its data had not reached the disk. */
  function Cut(file: Option<File>, cut: nat): Option<File> {
    if file.None? || file.value.synced then file else Some(File(Prefix(file.value.text, cut), true))
  }

  /** What the machine finds after losing power: one of the files renamed into place since the directory was last
      synced, or the one that was there then. */
  function Lost(d: Disk, kept: nat, cut: nat): Disk {
    Disk(Cut(if kept < |d.pending| then Some(d.pending[kept]) else d.settled, cut), [], None)
  }

  ghost predicate CanLeave(d: Disk, file: Option<string>) {
    exists kept: nat, cut: nat :: Visible(Lost(d, kept, cut)) == file
  }

  lemma LeavesSettled(d: Disk, cut: nat)
    ensures CanLeave(d, TextOf(Cut(d.settled, cut)))
  {
    assert Visible(Lost(d, |d.pending|, cut)) == TextOf(Cut(d.settled, cut));
  }

  lemma LeavesPending(d: Disk, kept: nat, cut: nat)
    requires kept < |d.pending|
    ensures CanLeave(d, TextOf(Cut(Some(d.pending[kept]), cut)))
  {
    assert Visible(Lost(d, kept, cut)) == TextOf(Cut(Some(d.pending[kept]), cut));
  }

  lemma RenamedLeaves(d: Disk, text: string, file: Option<string>)
    ensures CanLeave(Disk(d.settled, d.pending + [File(text, true)], None), file)
            <==> CanLeave(d, file) || file == Some(text)
  {
    var after := Disk(d.settled, d.pending + [File(text, true)], None);
    LeavesPending(after, |d.pending|, 0);
    if CanLeave(d, file) {
      var kept: nat, cut: nat :| Visible(Lost(d, kept, cut)) == file;
      if kept < |d.pending| {
        assert after.pending[kept] == d.pending[kept];
        LeavesPending(after, kept, cut);
      } else {
        LeavesSettled(after, cut);
      }
    }
    if CanLeave(after, file) && file != Some(text) {
      var kept: nat, cut: nat :| Visible(Lost(after, kept, cut)) == file;
      if kept < |d.pending| {
        LeavesPending(d, kept, cut);
      } else {
        LeavesSettled(d, cut);
      }
    }
  }

  /** Whatever fails, the trust file programs see is wholly the old one before the rename has happened and wholly
      the new one after.  A loss of power then leaves what it could have left before or, after the rename, wholly
      the new file; and after a success nothing but the new file. */
  lemma PersistIsAtomic(d: Disk, text: string, fault: Fault, file: Option<string>)
    ensures var (after, outcome) := Persisted(d, text, fault);
            && (outcome.Done? <==> fault.NoFault? || fault.stage.Loading?)
            && Visible(after) == (if outcome.Done? || At(fault, SyncingParent) then Some(text) else Visible(d))
            && (CanLeave(after, file) <==>
                  if outcome.Done? then file == Some(text)
                  else CanLeave(d, file) || (At(fault, SyncingParent) && file == Some(text)))
  {
    hide CanLeave;
    var (after, outcome) := Persisted(d, text, fault);
    if outcome.Done? {
      DoneLeaves(text, file);
    } else if At(fault, SyncingParent) {
      RenamedLeaves(d, text, file);
    } else {
      DraftDoesNotMatter(d, after.draft, file);
    }
  }

  lemma DoneLeaves(text: string, file: Option<string>)
    ensures CanLeave(Disk(Some(File(text, true)), [], None), file) <==> file == Some(text)
  {
    LeavesSettled(Disk(Some(File(text, true)), [], None), 0);
  }

  lemma DraftDoesNotMatter(d: Disk, draft: Option<File>, file: Option<string>)
    ensures CanLeave(d.(draft := draft), file) <==> CanLeave(d, file)
  {
    assert forall kept: nat, cut: nat :: Lost(d.(draft := draft), kept, cut) == Lost(d, kept, cut);
  }

  /** A command that reports success has taken effect: loading now gives the updated registry. */
  lemma SuccessThenLoad(canon: Canon, d: Disk, command: Command, fault: Fault)
    requires SoundCanon(canon) && WellFormed(canon, command)
    ensures var (after, outcome) := Commanded(canon, d, command, fault);
            outcome.Done? ==>
              && Load(canon, Visible(d)).Ok?
              && Load(canon, Visible(after)) == Update(canon, Load(canon, Visible(d)).value, command)
  {
    hide SoundCanon, ValidRegistry, Parsed, Text;
    if Writes(canon, d, command, fault) {
      WantedIsValid(canon, Visible(d), command);
      RoundTrip(canon, Wanted(canon, Visible(d), command).value);
    } else if NothingToRemove(canon, Visible(d), command) {
      var r := Load(canon, Visible(d)).value;
      assert r.proxies - {canon(command.url).value} == r.proxies;
    }
  }

  /** The origin a command is about. */
  function Subject(canon: Canon, command: Command): Option<string> {
    match command
    case Insert(id) => Some(id.origin)
    case Replace(id) => Some(id.origin)
    case Remove(url) => canon(url)
  }

  /** A command changes one proxy and nothing else: inserting never touches an identity that is trusted already,
      replacing needs one, and every other identity and every agent stays. */
  lemma ChangesOneProxy(canon: Canon, r: Registry, command: Command)
    ensures var next := Update(canon, r, command);
            && (next.Ok? <==>
                  match command
                  case Insert(id) => id.origin !in r.proxies && |r.proxies| < MAX_TRUSTED_PROXIES
                  case Replace(id) => id.origin in r.proxies
                  case Remove(url) => canon(url).Some?)
            && (next.Ok? ==>
                  && next.value.agents == r.agents
                  && (forall o | Some(o) != Subject(canon, command) ::
                        (o in next.value.proxies <==> o in r.proxies)
                        && (o in r.proxies ==> next.value.proxies[o] == r.proxies[o]))
                  && (if command.Remove? then canon(command.url).value !in next.value.proxies
                      else command.id.origin in next.value.proxies
                           && next.value.proxies[command.id.origin] == command.id))
  {
  }

  /** Without a fault a command succeeds exactly when the file loads, the change is allowed, and there is nothing to
      write or the new text fits; and otherwise leaves the disk as it is. */
  lemma CommandExactly(canon: Canon, d: Disk, command: Command)
    ensures var (after, outcome) := Commanded(canon, d, command, NoFault);
            var loaded := Load(canon, Visible(d));
            && (outcome.Done? <==>
                  && loaded.Ok?
                  && Update(canon, loaded.value, command).Ok?
                  && (|| (command.Remove? && canon(command.url).value !in loaded.value.proxies)
                      || |Text(Update(canon, loaded.value, command).value)| <= MAX_TRUST_FILE_BYTES))
            && (!outcome.Done? ==> after == d)
  {
    hide Parsed, Text, Load;
    var loaded := Load(canon, Visible(d));
    if loaded.Ok? && command.Remove? && canon(command.url).Some? {
      var origin, proxies := canon(command.url).value, loaded.value.proxies;
      assert origin !in proxies ==> proxies - {origin} == proxies;
      assert origin in proxies ==> proxies - {origin} != proxies;
    }
  }

  /** A missing file is an empty registry, and one that does not parse stops every command before it writes. */
  lemma UnreadableStopsCommands(canon: Canon, d: Disk, command: Command, fault: Fault)
    ensures Visible(d).None? ==> Load(canon, Visible(d)) == Ok(Registry({}, map[]))
    ensures Visible(d).Some? ==> Load(canon, Visible(d)) == Parsed(canon, Visible(d).value)
    ensures Visible(d).Some? && Parsed(canon, Visible(d).value).Err? ==>
              Commanded(canon, d, command, fault).0 == d && !Commanded(canon, d, command, fault).1.Done?
  {
    hide Parsed, Text;
  }

  // ---- which successes survive a loss of power ----

  /** A registry shows what a command asked for. */
  predicate InEffect(canon: Canon, r: Registry, command: Command) {
    match command
    case Insert(id) => id.origin in r.proxies && r.proxies[id.origin] == id
    case Replace(id) => id.origin in r.proxies && r.proxies[id.origin] == id
    case Remove(url) => canon(url).Some? && canon(url).value !in r.proxies
  }

  predicate FileShows(canon: Canon, file: Option<string>, command: Command) {
    Load(canon, file).Ok? && InEffect(canon, Load(canon, file).value, command)
  }

  /** Whatever a loss of power leaves now, it shows what the command asked for. */
  ghost predicate Survives(canon: Canon, d: Disk, command: Command) {
    forall file | CanLeave(d, file) :: FileShows(canon, file, command)
  }

  /** No file is in place, or may come back, whose data has not reached the disk. */
  predicate Whole(d: Disk) {
    (d.settled.Some? ==> d.settled.value.synced) && forall file | file in d.pending :: file.synced
  }

  /** The file that is sure to be on disk and every one renamed into its place since show it. */
  predicate AllShow(canon: Canon, d: Disk, command: Command) {
    && FileShows(canon, TextOf(d.settled), command)
    && forall file | file in d.pending :: FileShows(canon, Some(file.text), command)
  }

  lemma UpdateShows(canon: Canon, r: Registry, command: Command)
    ensures var next := Update(canon, r, command); next.Ok? ==> InEffect(canon, next.value, command)
  {
  }

  lemma WholeSurvives(canon: Canon, d: Disk, command: Command)
    requires Whole(d)
    ensures Survives(canon, d, command) <==> AllShow(canon, d, command)
  {
    hide FileShows;
    LeavesSettled(d, 0);
    forall kept | 0 <= kept < |d.pending| ensures CanLeave(d, Some(d.pending[kept].text)) {
      LeavesPending(d, kept, 0);
    }
  }

  lemma CommandKeepsWhole(canon: Canon, d: Disk, command: Command, fault: Fault)
    requires Whole(d)
    ensures Whole(Commanded(canon, d, command, fault).0)
  {
    hide Wanted, NothingToRemove, Text;
  }

  /** A reported success survives a loss of power if and only if the command wrote, or what it asked for is shown
      by the file that is sure to be on disk and by every one renamed into its place since. */
  lemma SuccessSurvivesExactly(canon: Canon, d: Disk, command: Command, fault: Fault)
    requires SoundCanon(canon) && WellFormed(canon, command) && Whole(d)
    requires Commanded(canon, d, command, fault).1.Done?
    ensures Survives(canon, Commanded(canon, d, command, fault).0, command) <==>
            Writes(canon, d, command, fault) || AllShow(canon, d, command)
  {
    hide SoundCanon, WellFormed, Survives, Load, Update, Text, Whole;
    SuccessThenLoad(canon, d, command, fault);
    UpdateShows(canon, Load(canon, Visible(d)).value, command);
    CommandKeepsWhole(canon, d, command, fault);
    WholeSurvives(canon, Commanded(canon, d, command, fault).0, command);
  }

  /** Why the other successes may not: a removal whose directory sync failed leaves the entry gone from the visible
      file, so repeating it reports success without writing, and a loss of power then brings the entry back. */
  lemma RetriedRemovalCanBeLost(canon: Canon, r: Registry, origin: string)
    requires SoundCanon(canon) && ValidRegistry(canon, r) && origin in r.proxies
    requires |Text(r)| <= MAX_TRUST_FILE_BYTES
    requires |Text(r.(proxies := r.proxies - {origin}))| <= MAX_TRUST_FILE_BYTES
    ensures var first := Commanded(canon, Resting(Some(Text(r))), Remove(origin), Fails(SyncingParent, 0));
            var second := Commanded(canon, first.0, Remove(origin), NoFault);
            && first.1.Failed? && second.1.Done?
            && Load(canon, Visible(second.0)) == Ok(r.(proxies := r.proxies - {origin}))
            && CanLeave(second.0, Some(Text(r))) && Load(canon, Some(Text(r))) == Ok(r)
  {
    hide SoundCanon, ValidRegistry, Parsed, Text, Commanded;
    var rest := r.(proxies := r.proxies - {origin});
    RoundTrip(canon, r);
    WithoutProxyIsValid(canon, r, origin);
    RoundTrip(canon, rest);
    assert canon(origin) == Some(origin) by { CanonicalOrigin(canon, r, origin); }
    RemovalUnsynced(canon, Resting(Some(Text(r))), r, origin);
    var first := Commanded(canon, Resting(Some(Text(r))), Remove(origin), Fails(SyncingParent, 0)).0;
    RemovalIdle(canon, first, rest, origin);
    LeavesSettled(first, 0);
  }

  /** The file sure to be on disk need not be the one that comes back.  An insertion and then its removal both fail
      at the directory sync; the removal is repeated and reports success; and a loss of power that keeps only the
      first of the two renames brings the entry back, although neither the file on disk nor the visible one has it. */
  lemma RemovalBetweenRenamesCanBeLost(canon: Canon, r: Registry, id: ProxyIdentity)
    requires SoundCanon(canon) && ValidRegistry(canon, r) && ValidProxy(canon, id.origin, id)
    requires id.origin !in r.proxies && |r.proxies| < MAX_TRUSTED_PROXIES
    requires |Text(r)| <= MAX_TRUST_FILE_BYTES
    requires |Text(r.(proxies := r.proxies[id.origin := id]))| <= MAX_TRUST_FILE_BYTES
    ensures var added := r.(proxies := r.proxies[id.origin := id]);
            var first := Commanded(canon, Resting(Some(Text(r))), Insert(id), Fails(SyncingParent, 0));
            var second := Commanded(canon, first.0, Remove(id.origin), Fails(SyncingParent, 0));
            var third := Commanded(canon, second.0, Remove(id.origin), NoFault);
            && first.1.Failed? && second.1.Failed? && third.1.Done?
            && FileShows(canon, TextOf(third.0.settled), Remove(id.origin))
            && FileShows(canon, Visible(third.0), Remove(id.origin))
            && CanLeave(third.0, Some(Text(added))) && Load(canon, Some(Text(added))) == Ok(added)
  {
    hide SoundCanon, ValidRegistry, ValidProxy, Parsed, Text, Commanded;
    var added := r.(proxies := r.proxies[id.origin := id]);
    RoundTrip(canon, r);
    WithProxyIsValid(canon, r, id);
    RoundTrip(canon, added);
    assert canon(id.origin) == Some(id.origin) by { CanonicalOrigin(canon, added, id.origin); }
    assert added.(proxies := added.proxies - {id.origin}) == r;
    var start := Resting(Some(Text(r)));
    InsertionUnsynced(canon, start, r, id);
    var first := Commanded(canon, start, Insert(id), Fails(SyncingParent, 0)).0;
    RemovalUnsynced(canon, first, added, id.origin);
    var second := Commanded(canon, first, Remove(id.origin), Fails(SyncingParent, 0)).0;
    RemovalIdle(canon, second, r, id.origin);
    LeavesPending(second, 0, 0);
  }

  lemma CanonicalOrigin(canon: Canon, r: Registry, origin: string)
    requires ValidRegistry(canon, r) && origin in r.proxies
    ensures canon(origin) == Some(origin)
  {
  }

  /** An insertion whose directory sync fails. */
  lemma InsertionUnsynced(canon: Canon, d: Disk, r: Registry, id: ProxyIdentity)
    requires Load(canon, Visible(d)) == Ok(r) && id.origin !in r.proxies && |r.proxies| < MAX_TRUSTED_PROXIES
    requires |Text(r.(proxies := r.proxies[id.origin := id]))| <= MAX_TRUST_FILE_BYTES
    ensures var text := Text(r.(proxies := r.proxies[id.origin := id]));
            Commanded(canon, d, Insert(id), Fails(SyncingParent, 0)) ==
            (Disk(d.settled, d.pending + [File(text, true)], None), Failed)
  {
    hide Parsed, Text, Load;
    assert Wanted(canon, Visible(d), Insert(id)) == Some(r.(proxies := r.proxies[id.origin := id]));
  }

  /** A removal whose directory sync fails. */
  lemma RemovalUnsynced(canon: Canon, d: Disk, r: Registry, origin: string)
    requires Load(canon, Visible(d)) == Ok(r) && canon(origin) == Some(origin) && origin in r.proxies
    requires |Text(r.(proxies := r.proxies - {origin}))| <= MAX_TRUST_FILE_BYTES
    ensures var text := Text(r.(proxies := r.proxies - {origin}));
            Commanded(canon, d, Remove(origin), Fails(SyncingParent, 0)) ==
            (Disk(d.settled, d.pending + [File(text, true)], None), Failed)
  {
    hide Parsed, Text, Load;
    var rest := r.(proxies := r.proxies - {origin});
    assert origin !in rest.proxies;
    assert Wanted(canon, Visible(d), Remove(origin)) == Some(rest);
  }

  /** A removal that finds nothing. */
  lemma RemovalIdle(canon: Canon, d: Disk, r: Registry, origin: string)
    requires Load(canon, Visible(d)) == Ok(r) && canon(origin) == Some(origin) && origin !in r.proxies
    ensures Commanded(canon, d, Remove(origin), NoFault) == (d, Done)
  {
    hide Parsed, Text, Load;
    assert r.proxies - {origin} == r.proxies;
    assert Wanted(canon, Visible(d), Remove(origin)) == None;
  }

  // ---- every run of commands, faults and power losses ----

  datatype Step = Run(command: Command, fault: Fault) | PowerLoss(kept: nat, cut: nat)

  ghost function After(canon: Canon, d: Disk, step: Step): Disk {
    match step
    case Run(command, fault) => Commanded(canon, d, command, fault).0
    case PowerLoss(kept, cut) => Lost(d, kept, cut)
  }

  ghost function Reached(canon: Canon, d: Disk, steps: seq<Step>): Disk {
    if steps == [] then d else After(canon, Reached(canon, d, steps[..|steps| - 1]), steps[|steps| - 1])
  }

  ghost predicate WroteDone(canon: Canon, d: Disk, command: Command, fault: Fault) {
    Writes(canon, d, command, fault) && Commanded(canon, d, command, fault).1.Done?
  }

  /** A step after which the visible file is sure to be on disk: a written success, or a loss of power, which has
      shown what it kept. */
  ghost predicate Sure(canon: Canon, d: Disk, step: Step) {
    step.PowerLoss? || WroteDone(canon, d, step.command, step.fault)
  }

  /** What the operator can tell: the last command that changed the file reported success, or power was lost
      since and the machine has shown what it kept. */
  ghost predicate Confirmed(canon: Canon, d: Disk, steps: seq<Step>) {
    steps == []
    || var before, step := steps[..|steps| - 1], steps[|steps| - 1];
       var was := Reached(canon, d, before);
       match step
       case PowerLoss(_, _) => true
       case Run(command, fault) =>
         if Visible(After(canon, was, step)) == Visible(was) then Confirmed(canon, d, before)
         else Commanded(canon, was, command, fault).1.Done?
  }

  /** The file programs saw has shown what a command asked for at every point since it was last sure to be on
      disk. */
  ghost predicate ShownSinceSure(canon: Canon, d: Disk, steps: seq<Step>, command: Command) {
    && FileShows(canon, Visible(Reached(canon, d, steps)), command)
    && (steps == []
        || Sure(canon, Reached(canon, d, steps[..|steps| - 1]), steps[|steps| - 1])
        || ShownSinceSure(canon, d, steps[..|steps| - 1], command))
  }

  /** The commands of a run, each with whether it reported success after writing. */
  datatype Entry = Entry(command: Command, wrote: bool)

  ghost function Log(canon: Canon, d: Disk, steps: seq<Step>): seq<Entry> {
    if steps == [] then []
    else
      var before, step := steps[..|steps| - 1], steps[|steps| - 1];
      var log := Log(canon, d, before);
      if step.PowerLoss? then log
      else log + [Entry(step.command, WroteDone(canon, Reached(canon, d, before), step.command, step.fault))]
  }

  ghost predicate Took(canon: Canon, before: Option<string>, command: Command, after: Option<string>) {
    && Load(canon, before).Ok?
    && Load(canon, after).Ok?
    && Load(canon, after) == Update(canon, Load(canon, before).value, command)
  }

  /** A file reached from `start` by applying the logged commands in order, where each that wrote is applied
      and each other one is applied or skipped. */
  ghost predicate Follows(canon: Canon, start: Option<string>, log: seq<Entry>, end: Option<string>)
    decreases |log|, 1
  {
    if log == [] then end == start else exists mid :: Via(canon, start, log, mid, end)
  }

  ghost predicate Via(canon: Canon, start: Option<string>, log: seq<Entry>, mid: Option<string>, end: Option<string>)
    requires log != []
    decreases |log|, 0
  {
    var last := log[|log| - 1];
    && Follows(canon, start, log[..|log| - 1], mid)
    && ((end == mid && !last.wrote) || Took(canon, mid, last.command, end))
  }

  lemma FollowsMore(canon: Canon, start: Option<string>, log: seq<Entry>, mid: Option<string>, last: Entry,
                    end: Option<string>)
    requires Follows(canon, start, log, mid)
    requires (end == mid && !last.wrote) || Took(canon, mid, last.command, end)
    ensures Follows(canon, start, log + [last], end)
  {
    hide Took, Follows;
    var more := log + [last];
    assert more[..|more| - 1] == log && more[|more| - 1] == last;
    assert Via(canon, start, more, mid, end);
    ViaFollows(canon, start, more, mid, end);
  }

  lemma ViaFollows(canon: Canon, start: Option<string>, log: seq<Entry>, mid: Option<string>, end: Option<string>)
    requires log != [] && Via(canon, start, log, mid, end)
    ensures Follows(canon, start, log, end)
  {
    hide Via;
  }

  /** What a command leaves: the same files, one more renamed into place, or just the new one. */
  lemma CommandTakes(canon: Canon, d: Disk, command: Command, fault: Fault)
    requires SoundCanon(canon) && WellFormed(canon, command)
    ensures var (after, outcome) := Commanded(canon, d, command, fault);
            if WroteDone(canon, d, command, fault) then
              && after.pending == [] && after.settled.Some? && after.settled.value.synced
              && Took(canon, Visible(d), command, Visible(after))
            else
              && after.settled == d.settled
              && (outcome.Done? ==> after == d)
              && (|| after.pending == d.pending
                  || (exists file :: after.pending == d.pending + [file] && file.synced
                                     && Took(canon, Visible(d), command, Some(file.text))))
  {
    hide SoundCanon, ValidRegistry, Parsed, Text, Update, Wanted;
    if Writes(canon, d, command, fault) {
      WantedIsValid(canon, Visible(d), command);
      var next := Wanted(canon, Visible(d), command).value;
      RoundTrip(canon, next);
      var file := File(Text(next), true);
      assert At(fault, SyncingParent) ==> Commanded(canon, d, command, fault).0.pending == d.pending + [file];
    }
  }

  predicate AllWellFormed(canon: Canon, steps: seq<Step>) {
    forall step | step in steps && step.Run? :: WellFormed(canon, step.command)
  }

  /** Every file that is or may come to be in place follows the log. */
  ghost predicate AllFollow(canon: Canon, start: Option<string>, log: seq<Entry>, d: Disk) {
    && Follows(canon, start, log, TextOf(d.settled))
    && forall file | file in d.pending :: Follows(canon, start, log, Some(file.text))
  }

  lemma AllFollowMore(canon: Canon, start: Option<string>, log: seq<Entry>, d: Disk, command: Command, fault: Fault)
    requires SoundCanon(canon) && WellFormed(canon, command) && Whole(d) && AllFollow(canon, start, log, d)
    ensures var last := Entry(command, WroteDone(canon, d, command, fault));
            var after := Commanded(canon, d, command, fault).0;
            Whole(after) && AllFollow(canon, start, log + [last], after)
  {
    hide SoundCanon, WellFormed, Commanded, WroteDone, Took, Follows;
    CommandTakes(canon, d, command, fault);
    var last := Entry(command, WroteDone(canon, d, command, fault));
    var after := Commanded(canon, d, command, fault).0;
    VisibleFollows(canon, start, log, d);
    if last.wrote {
      FollowsMore(canon, start, log, Visible(d), last, Visible(after));
    } else {
      FollowsMore(canon, start, log, TextOf(d.settled), last, TextOf(d.settled));
      forall file | file in after.pending ensures file.synced && Follows(canon, start, log + [last], Some(file.text)) {
        if file in d.pending {
          FollowsMore(canon, start, log, Some(file.text), last, Some(file.text));
        } else {
          FollowsMore(canon, start, log, Visible(d), last, Some(file.text));
        }
      }
    }
  }

  lemma VisibleFollows(canon: Canon, start: Option<string>, log: seq<Entry>, d: Disk)
    requires AllFollow(canon, start, log, d)
    ensures Follows(canon, start, log, Visible(d))
  {
    hide Follows;
  }

  lemma {:induction false} RunFollows(canon: Canon, original: Option<string>, steps: seq<Step>)
    requires SoundCanon(canon) && AllWellFormed(canon, steps)
    ensures var end := Reached(canon, Resting(original), steps);
            Whole(end) && AllFollow(canon, original, Log(canon, Resting(original), steps), end)
    decreases |steps|
  {
    hide SoundCanon, WellFormed, Commanded, WroteDone, Via;
    if steps != [] {
      var before, step := steps[..|steps| - 1], steps[|steps| - 1];
      assert step in steps;
      assert forall s | s in before :: s in steps;
      RunFollows(canon, original, before);
      if step.Run? {
        AllFollowMore(canon, original, Log(canon, Resting(original), before), Reached(canon, Resting(original), before),
                      step.command, step.fault);
      }
    }
  }

  /** Through any failures, kills and losses of power the trust file programs see, and every file a further loss of
      power could leave, is the original changed by the commands in order: every command that reported a written
      success is in it, and each other one is in it wholly or not at all. */
  lemma NoWrittenSuccessIsLost(canon: Canon, original: Option<string>, steps: seq<Step>)
    requires SoundCanon(canon) && AllWellFormed(canon, steps)
    ensures var end := Reached(canon, Resting(original), steps);
            var log := Log(canon, Resting(original), steps);
            && Follows(canon, original, log, Visible(end))
            && forall file | CanLeave(end, file) :: Follows(canon, original, log, file)
  {
    hide SoundCanon, AllWellFormed, Follows, Reached, Log;
    RunFollows(canon, original, steps);
    var end := Reached(canon, Resting(original), steps);
    VisibleFollows(canon, original, Log(canon, Resting(original), steps), end);
  }

  // ---- which successes survive, over whole runs ----

  lemma ShownMore(canon: Canon, d: Disk, command: Command, fault: Fault, asked: Command)
    requires SoundCanon(canon) && WellFormed(canon, command)
    ensures var after := Commanded(canon, d, command, fault).0;
            AllShow(canon, after, asked) <==>
            FileShows(canon, Visible(after), asked)
            && (WroteDone(canon, d, command, fault) || AllShow(canon, d, asked))
  {
    hide SoundCanon, WellFormed, Commanded, WroteDone, Took, FileShows;
    CommandTakes(canon, d, command, fault);
  }

  lemma {:induction false} ShownIsAll(canon: Canon, d: Disk, steps: seq<Step>, asked: Command)
    requires SoundCanon(canon) && AllWellFormed(canon, steps) && d.pending == []
    ensures AllShow(canon, Reached(canon, d, steps), asked) <==> ShownSinceSure(canon, d, steps, asked)
    decreases |steps|
  {
    hide SoundCanon, WellFormed, Commanded, WroteDone, FileShows;
    if steps != [] {
      var before, step := steps[..|steps| - 1], steps[|steps| - 1];
      assert step in steps;
      assert forall s | s in before :: s in steps;
      ShownIsAll(canon, d, before, asked);
      if step.Run? {
        ShownMore(canon, Reached(canon, d, before), step.command, step.fault, asked);
      }
    }
  }

  /** Every file a loss of power could leave has the text programs see. */
  predicate OneText(d: Disk) {
    TextOf(d.settled) == Visible(d) && forall file | file in d.pending :: Some(file.text) == Visible(d)
  }

  lemma {:induction false} ConfirmedIsSettled(canon: Canon, d: Disk, steps: seq<Step>)
    requires SoundCanon(canon) && AllWellFormed(canon, steps) && d.pending == [] && Confirmed(canon, d, steps)
    ensures OneText(Reached(canon, d, steps))
    decreases |steps|
  {
    hide SoundCanon, WellFormed, Commanded, WroteDone, Took;
    if steps != [] {
      var before, step := steps[..|steps| - 1], steps[|steps| - 1];
      assert step in steps;
      assert forall s | s in before :: s in steps;
      var was := Reached(canon, d, before);
      if step.Run? {
        CommandTakes(canon, was, step.command, step.fault);
        if Visible(After(canon, was, step)) == Visible(was) {
          ConfirmedIsSettled(canon, d, before);
        }
      }
    }
  }

  /** After any run of commands, faults and power losses, a command that reports success survives a loss of power
      if and only if it wrote, or the file has shown what it asked for ever since it was last sure to be on disk;
      so it always does when the last change the operator made was confirmed. */
  lemma RunSuccessSurvives(canon: Canon, original: Option<string>, steps: seq<Step>, command: Command, fault: Fault)
    requires SoundCanon(canon) && AllWellFormed(canon, steps) && WellFormed(canon, command)
    requires Commanded(canon, Reached(canon, Resting(original), steps), command, fault).1.Done?
    ensures var d := Reached(canon, Resting(original), steps);
            && (Survives(canon, Commanded(canon, d, command, fault).0, command) <==>
                  Writes(canon, d, command, fault) || ShownSinceSure(canon, Resting(original), steps, command))
            && (Confirmed(canon, Resting(original), steps) ==>
                  Survives(canon, Commanded(canon, d, command, fault).0, command))
  {
    hide SoundCanon, WellFormed, AllWellFormed, Survives, Commanded, Writes, FileShows, Whole, AllFollow,
         ShownSinceSure, Confirmed, Reached;
    var d := Reached(canon, Resting(original), steps);
    RunFollows(canon, original, steps);
    SuccessSurvivesExactly(canon, d, command, fault);
    ShownIsAll(canon, Resting(original), steps, command);
    if Confirmed(canon, Resting(original), steps) {
      ConfirmedIsSettled(canon, Resting(original), steps);
      SuccessShows(canon, d, command, fault);
    }
  }

  lemma SuccessShows(canon: Canon, d: Disk, command: Command, fault: Fault)
    requires SoundCanon(canon) && WellFormed(canon, command) && Commanded(canon, d, command, fault).1.Done?
    ensures Writes(canon, d, command, fault) || FileShows(canon, Visible(d), command)
  {
    hide SoundCanon, WellFormed, Load, Update, Text;
    SuccessThenLoad(canon, d, command, fault);
    UpdateShows(canon, Load(canon, Visible(d)).value, command);
  }
}
