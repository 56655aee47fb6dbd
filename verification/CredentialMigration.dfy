/** The one-time move of the MaxMind credentials from a plaintext file into the operating system's
    store (`geoip_credentials.rs`): store first, then zero and remove the file. Every step can
    fail, and the process can die between any two of them. */
module CredentialMigration {

  import opened Wrappers
  import opened Strings

  const MAX_CREDENTIALS_FILE_SIZE: nat := 8 * 1024
  const MAX_ZEROED: nat := 64 * 1024

  datatype Credentials = Credentials(accountId: string, licenseKey: string)

  /** The TOML and JSON parsers, and the JSON writer. */
  datatype Formats = Formats(
    toml: string -> Option<Credentials>,
    json: string -> Option<Credentials>,
    toJson: Credentials -> string)

  predicate IsBlank(c: Credentials) {
    Trim(c.accountId) == [] || Trim(c.licenseKey) == []
  }

  /** What is written as JSON can be read back. */
  ghost predicate JsonRoundTrips(f: Formats) {
    forall c :: f.json(f.toJson(c)) == Some(c)
  }

  datatype LegacyFile = LegacyFile(text: string, isUtf8: bool)

  datatype CredentialsError = Io | Malformed | TooLarge | KeyStore

  datatype MigrationOutcome = NothingToMigrate | Migrated | StalePlaintextPresent

  function NotBlank(c: Option<Credentials>): Option<Credentials> {
    if c.Some? && !IsBlank(c.value) then c else None
  }

  /** `read_legacy_bounded`, then `parse_legacy_toml`. */
  function ReadLegacy(f: Formats, file: LegacyFile): Result<Credentials, CredentialsError> {
    if !file.isUtf8 then Failure(Io)
    else if |file.text| > MAX_CREDENTIALS_FILE_SIZE then Failure(TooLarge)
    else
      match NotBlank(f.toml(file.text))
      case None => Failure(Malformed)
      case Some(c) => Success(c)
  }

  function StoredCredentials(f: Formats, blob: string): Option<Credentials> {
    NotBlank(f.json(blob))
  }

  /** What `load` answers. */
  function Loaded(f: Formats, store: Option<string>): Result<Option<Credentials>, CredentialsError> {
    match store
    case None => Success(None)
    case Some(blob) =>
      match StoredCredentials(f, blob)
      case None => Failure(Malformed)
      case Some(c) => Success(Some(c))
  }

  /** Which operations of one attempt succeed. */
  datatype Faults = Faults(loadOk: bool, openOk: bool, storeOk: bool, truncateOk: bool, zeroOk: bool, removeOk: bool)

  const NO_FAULTS := Faults(true, true, true, true, true, true)

  function Zeros(n: nat): string {
    seq(n, i => '\0')
  }

  /** `overwrite_with_zeros`: truncate in place, then write as many zeros, at most 64 KiB. */
  function Zeroed(file: LegacyFile): LegacyFile {
    LegacyFile(Zeros(if |file.text| <= MAX_ZEROED then |file.text| else MAX_ZEROED), true)
  }

  function Erased(file: LegacyFile, faults: Faults): Option<LegacyFile> {
    if faults.removeOk then None
    else if !faults.truncateOk then Some(file)
    else if !faults.zeroOk then Some(LegacyFile([], true))
    else Some(Zeroed(file))
  }

  function AfterErase(file: LegacyFile, outcome: MigrationOutcome, faults: Faults)
    : (Option<LegacyFile>, Result<MigrationOutcome, CredentialsError>)
  {
    (Erased(file, faults), if faults.removeOk then Success(outcome) else Failure(Io))
  }

  /** Store, file and answer after one attempt that runs to its end. */
  function AfterMigration(f: Formats, store: Option<string>, file: Option<LegacyFile>, faults: Faults)
    : (Option<string>, Option<LegacyFile>, Result<MigrationOutcome, CredentialsError>)
  {
    if file.None? then (store, file, Success(NothingToMigrate))
    else if !faults.loadOk then (store, file, Failure(KeyStore))
    else if store.Some? then
      var (file', result) := AfterErase(file.value, StalePlaintextPresent, faults);
      (store, file', result)
    else if !faults.openOk then (store, file, Failure(Io))
    else
      match ReadLegacy(f, file.value)
      case Failure(error) => (store, file, Failure(error))
      case Success(c) =>
        if !faults.storeOk then (store, file, Failure(KeyStore))
        else
          var (file', result) := AfterErase(file.value, Migrated, faults);
          (Some(f.toJson(c)), file', result)
  }

  /** The credentials of one installation: the store's entry and the leftover file. */
  class Installation {
    var store: Option<string>
    var file: Option<LegacyFile>

    method Load(f: Formats) returns (result: Result<Option<Credentials>, CredentialsError>)
      ensures result == Loaded(f, store)
    {
      if store.None? {
        return Success(None);
      }
      var stored := f.json(store.value);
      if stored.None? {
        return Failure(Malformed);
      }
      if Trim(stored.value.accountId) == [] || Trim(stored.value.licenseKey) == [] {
        return Failure(Malformed);
      }
      result := Success(stored);
    }

    method Save(f: Formats, c: Credentials, storeOk: bool) returns (result: Result<(), CredentialsError>)
      modifies this`store
      ensures result == if IsBlank(c) then Failure(Malformed) else if storeOk then Success(()) else Failure(KeyStore)
      ensures store == if result.Success? then Some(f.toJson(c)) else old(store)
    {
      if IsBlank(c) {
        return Failure(Malformed);
      }
      if !storeOk {
        return Failure(KeyStore);
      }
      store := Some(f.toJson(c));
      result := Success(());
    }

    /** `clear`, the operator's step of the machine below. */
    method Clear(f: Formats, storeOk: bool) returns (result: Result<(), CredentialsError>)
      modifies this`store
      ensures result.Success? <==> storeOk
      ensures var before := State(old(store), file, Serving(Success(NothingToMigrate)));
              Step(f, before, OperatorClears(storeOk)) == before.(store := store)
    {
      if !storeOk {
        return Failure(KeyStore);
      }
      store := None;
      result := Success(());
    }

    /** `erase_and_remove`: a failed overwrite is only logged. */
    method EraseAndRemove(faults: Faults) returns (ok: bool)
      requires file.Some?
      modifies this`file
      ensures file == Erased(old(file).value, faults) && ok == faults.removeOk
    {
      var length := |file.value.text|;
      if faults.truncateOk {
        file := Some(LegacyFile([], true));
        if faults.zeroOk {
          file := Some(LegacyFile(Zeros(if length <= MAX_ZEROED then length else MAX_ZEROED), true));
        }
      }
      if !faults.removeOk {
        return false;
      }
      file := None;
      ok := true;
    }

    method MigrateLegacyCredentialsFile(f: Formats, faults: Faults)
      returns (result: Result<MigrationOutcome, CredentialsError>)
      modifies this
      ensures (store, file, result) == AfterMigration(f, old(store), old(file), faults)
    {
      if file.None? {
        return Success(NothingToMigrate);
      }
      if !faults.loadOk {
        return Failure(KeyStore);
      }
      if store.Some? {
        var erased := EraseAndRemove(faults);
        return if erased then Success(StalePlaintextPresent) else Failure(Io);
      }
      if !faults.openOk {
        return Failure(Io);
      }
      var raw := ReadLegacy(f, file.value);
      if raw.Failure? {
        return Failure(raw.error);
      }
      if !faults.storeOk {
        return Failure(KeyStore);
      }
      store := Some(f.toJson(raw.value));
      var erased := EraseAndRemove(faults);
      result := if erased then Success(Migrated) else Failure(Io);
    }
  }

  // ---------- the same as steps, with crashes ----------

  datatype Phase =
    | Down
    | Starting
    | FileSeen
    | StoreWasEmpty
    | Parsed(credentials: Credentials)
    | Erasing(outcome: MigrationOutcome)
    | Truncated(outcome: MigrationOutcome, length: nat)
    | Removing(outcome: MigrationOutcome)
    | Serving(result: Result<MigrationOutcome, CredentialsError>)

  datatype State = State(store: Option<string>, file: Option<LegacyFile>, phase: Phase)

  datatype Event =
    | Boots
    | Advances(ok: bool)
    | Crashes
    | OperatorSaves(credentials: Credentials, storeOk: bool)
    | OperatorClears(storeOk: bool)

  function Ends(s: State, result: Result<MigrationOutcome, CredentialsError>): State {
    s.(phase := Serving(result))
  }

  function Advance(f: Formats, s: State, ok: bool): State {
    match s.phase
    case Starting => if s.file.None? then Ends(s, Success(NothingToMigrate)) else s.(phase := FileSeen)
    case FileSeen =>
      if !ok then Ends(s, Failure(KeyStore))
      else if s.store.Some? then s.(phase := Erasing(StalePlaintextPresent))
      else s.(phase := StoreWasEmpty)
    case StoreWasEmpty =>
      if !ok || s.file.None? then Ends(s, Failure(Io))
      else
        (match ReadLegacy(f, s.file.value)
         case Failure(error) => Ends(s, Failure(error))
         case Success(c) => s.(phase := Parsed(c)))
    case Parsed(c) =>
      if !ok then Ends(s, Failure(KeyStore)) else s.(store := Some(f.toJson(c)), phase := Erasing(Migrated))
    case Erasing(outcome) =>
      if !ok || s.file.None? then s.(phase := Removing(outcome))
      else s.(file := Some(LegacyFile([], true)), phase := Truncated(outcome, |s.file.value.text|))
    case Truncated(outcome, length) =>
      if !ok then s.(phase := Removing(outcome))
      else s.(file := Some(LegacyFile(Zeros(if length <= MAX_ZEROED then length else MAX_ZEROED), true)),
              phase := Removing(outcome))
    case Removing(outcome) =>
      if !ok then Ends(s, Failure(Io)) else Ends(s.(file := None), Success(outcome))
    case _ => s
  }

  /** The migration runs before the service answers requests, so the operator only acts while
      serving. */
  function Step(f: Formats, s: State, e: Event): State {
    match e
    case Boots => if s.phase.Down? then s.(phase := Starting) else s
    case Advances(ok) => Advance(f, s, ok)
    case Crashes => s.(phase := Down)
    case OperatorSaves(c, storeOk) =>
      if s.phase.Serving? && !IsBlank(c) && storeOk then s.(store := Some(f.toJson(c))) else s
    case OperatorClears(storeOk) => if s.phase.Serving? && storeOk then s.(store := None) else s
  }

  function Run(f: Formats, s: State, events: seq<Event>): State {
    if events == [] then s else Step(f, Run(f, s, events[..|events| - 1]), events[|events| - 1])
  }

  predicate IsOperatorEvent(e: Event) {
    e.OperatorSaves? || e.OperatorClears?
  }

  /** Where the credentials are: in the store if it holds anything, else in the file. */
  function Kept(f: Formats, s: State): Option<Credentials> {
    if s.store.Some? then StoredCredentials(f, s.store.value)
    else if s.file.Some? && ReadLegacy(f, s.file.value).Success? then Some(ReadLegacy(f, s.file.value).value)
    else None
  }

  ghost predicate StoreIsReadable(f: Formats, s: State) {
    s.store.Some? ==> StoredCredentials(f, s.store.value).Some?
  }

  /** The file is only touched once the store holds the credentials. */
  ghost predicate Coherent(f: Formats, s: State) {
    && (s.phase.FileSeen? || s.phase.StoreWasEmpty? || s.phase.Parsed? || s.phase.Erasing? ==> s.file.Some?)
    && (s.phase.StoreWasEmpty? || s.phase.Parsed? ==> s.store.None?)
    && (s.phase.Parsed? ==> s.file.Some? && ReadLegacy(f, s.file.value) == Success(s.phase.credentials))
    && (s.phase.Erasing? || s.phase.Truncated? || s.phase.Removing? ==> s.store.Some?)
    && (s.phase.Truncated? || s.phase.Removing? ==> s.file.Some?)
  }

  lemma ReadLegacyIsNotBlank(f: Formats, file: LegacyFile)
    ensures ReadLegacy(f, file).Success? ==> !IsBlank(ReadLegacy(f, file).value)
  {
  }

  /** No step of a migration and no crash loses the credentials or changes them: a readable store
      stays readable and what is kept stays the same, between zeroing and removing too. */
  lemma StepKeepsCredentials(f: Formats, s: State, e: Event)
    requires JsonRoundTrips(f) && Coherent(f, s) && StoreIsReadable(f, s)
    ensures Coherent(f, Step(f, s, e)) && StoreIsReadable(f, Step(f, s, e))
    ensures !IsOperatorEvent(e) ==> Kept(f, Step(f, s, e)) == Kept(f, s)
  {
    if s.file.Some? {
      ReadLegacyIsNotBlank(f, s.file.value);
    }
  }

  lemma {:induction false} RunKeepsCredentials(f: Formats, s: State, events: seq<Event>)
    requires JsonRoundTrips(f) && s.phase.Down? && StoreIsReadable(f, s)
    ensures Coherent(f, Run(f, s, events)) && StoreIsReadable(f, Run(f, s, events))
    ensures (forall e :: e in events ==> !IsOperatorEvent(e)) ==> Kept(f, Run(f, s, events)) == Kept(f, s)
    decreases |events|
  {
    if events != [] {
      var init := events[..|events| - 1];
      assert forall e :: e in init ==> e in events;
      assert events[|events| - 1] in events;
      RunKeepsCredentials(f, s, init);
      StepKeepsCredentials(f, Run(f, s, init), events[|events| - 1]);
    }
  }

  // ---------- reruns ----------

  /** Store and file after one undisturbed migration. */
  function Settled(f: Formats, s: State): (Option<string>, Option<LegacyFile>) {
    var (store, file, _) := AfterMigration(f, s.store, s.file, NO_FAULTS);
    (store, file)
  }

  /** No step moves the end point: wherever an attempt stops, a rerun that finishes ends where an
      uninterrupted first run would have ended. */
  lemma StepKeepsEndPoint(f: Formats, s: State, e: Event)
    requires Coherent(f, s) && !IsOperatorEvent(e)
    ensures Coherent(f, Step(f, s, e)) && Settled(f, Step(f, s, e)) == Settled(f, s)
  {
  }

  lemma {:induction false} RerunsEndAlike(f: Formats, s: State, events: seq<Event>)
    requires s.phase.Down? && forall e :: e in events ==> !IsOperatorEvent(e)
    ensures Coherent(f, Run(f, s, events)) && Settled(f, Run(f, s, events)) == Settled(f, s)
    decreases |events|
  {
    if events != [] {
      var init := events[..|events| - 1];
      assert forall e :: e in init ==> e in events;
      assert events[|events| - 1] in events;
      RerunsEndAlike(f, s, init);
      StepKeepsEndPoint(f, Run(f, s, init), events[|events| - 1]);
    }
  }

  /** A migration that reports success is finished: store and file are the end point. */
  lemma SuccessIsTheEndPoint(f: Formats, s: State, e: Event)
    requires Coherent(f, s) && !s.phase.Serving? && e.Advances?
    ensures var s' := Step(f, s, e);
            s'.phase.Serving? && s'.phase.result.Success? ==> (s'.store, s'.file) == Settled(f, s) && s'.file == None
  {
  }

  /** A file that cannot be read, found with an empty store, is never touched. */
  lemma {:induction false} UnreadableFilesAreNeverErased(f: Formats, s: State, events: seq<Event>)
    requires s.phase.Down? && s.store.None? && s.file.Some? && ReadLegacy(f, s.file.value).Failure?
    requires forall e :: e in events ==> !IsOperatorEvent(e)
    ensures Run(f, s, events).store == None && Run(f, s, events).file == s.file
    ensures !Run(f, s, events).phase.Parsed? && Coherent(f, Run(f, s, events))
    decreases |events|
  {
    if events != [] {
      var init := events[..|events| - 1];
      assert forall e :: e in init ==> e in events;
      assert events[|events| - 1] in events;
      UnreadableFilesAreNeverErased(f, s, init);
    }
  }

  // ---------- what is read and what is answered ----------

  predicate IsFilled(c: Credentials) {
    Trim(c.accountId) != [] && Trim(c.licenseKey) != []
  }

  /** When a leftover file can be read: it is text of at most 8 KiB that the parser takes, with neither
      field blank. */
  lemma LegacyReadsIff(f: Formats, file: LegacyFile, c: Credentials)
    ensures ReadLegacy(f, file) == Success(c)
       <==> file.isUtf8 && |file.text| <= 8 * 1024 && f.toml(file.text) == Some(c) && IsFilled(c)
    ensures ReadLegacy(f, file) == Failure(Io) <==> !file.isUtf8
    ensures ReadLegacy(f, file) == Failure(TooLarge) <==> file.isUtf8 && |file.text| > 8 * 1024
    ensures ReadLegacy(f, file).Failure? ==> ReadLegacy(f, file).error != KeyStore
  {
  }

  /** When the store's entry can be read: the parser takes it, with neither field blank. */
  lemma StoreLoadsIff(f: Formats, store: Option<string>, c: Credentials)
    ensures Loaded(f, store) == Success(Some(c)) <==> store.Some? && f.json(store.value) == Some(c) && IsFilled(c)
    ensures Loaded(f, store) == Success(None) <==> store.None?
    ensures Loaded(f, store).Failure? ==> Loaded(f, store).error == Malformed
  {
  }

  /** The file is gone exactly if it could be removed; otherwise, if it could be truncated, nothing of its
      text is left in it: zeros of its length, at most 64 KiB, or nothing. */
  lemma ErasedFileHoldsNoText(file: LegacyFile, faults: Faults)
    ensures var left := Erased(file, faults);
            && (left.None? <==> faults.removeOk)
            && (left.Some? && !faults.truncateOk ==> left.value == file)
            && (left.Some? && faults.truncateOk ==>
                  && (forall i :: 0 <= i < |left.value.text| ==> left.value.text[i] == '\0')
                  && |left.value.text| == (if !faults.zeroOk then 0
                                           else if |file.text| <= 64 * 1024 then |file.text| else 64 * 1024))
  {
  }

  /** The attempt gets as far as storing the file's credentials. */
  predicate Stores(f: Formats, store: Option<string>, file: Option<LegacyFile>, faults: Faults) {
    && file.Some? && store.None? && faults.loadOk && faults.openOk && faults.storeOk
    && ReadLegacy(f, file.value).Success?
  }

  /** The answer of an attempt, case by case, and what it has done to the store. */
  lemma AnswerIff(f: Formats, store: Option<string>, file: Option<LegacyFile>, faults: Faults)
    ensures var (store', file', result) := AfterMigration(f, store, file, faults);
            var asked := file.Some? && faults.loadOk;
            var fileIsRead := asked && store.None? && faults.openOk;
            && (result == Success(NothingToMigrate) <==> file.None?)
            && (result == Success(StalePlaintextPresent) <==> asked && store.Some? && faults.removeOk)
            && (result == Success(Migrated) <==> Stores(f, store, file, faults) && faults.removeOk)
            && (result == Failure(KeyStore)
                <==> (file.Some? && !faults.loadOk)
                     || (fileIsRead && ReadLegacy(f, file.value).Success? && !faults.storeOk))
            && (result == Failure(Malformed) <==> fileIsRead && ReadLegacy(f, file.value) == Failure(Malformed))
            && (result == Failure(TooLarge) <==> fileIsRead && ReadLegacy(f, file.value) == Failure(TooLarge))
            && store' == (if Stores(f, store, file, faults) then Some(f.toJson(ReadLegacy(f, file.value).value))
                          else store)
            && file' == (if (asked && store.Some?) || Stores(f, store, file, faults) then Erased(file.value, faults)
                         else file)
  {
  }

  // ---------- the steps are the method ----------

  /** The steps of the erasure with the faults in their order. */
  function EraseAttempt(f: Formats, s: State, faults: Faults): State {
    var s5 := if s.phase.Erasing? then Advance(f, s, faults.truncateOk) else s;
    var s6 := if s5.phase.Truncated? then Advance(f, s5, faults.zeroOk) else s5;
    if s6.phase.Removing? then Advance(f, s6, faults.removeOk) else s6
  }

  /** The steps of one attempt with the faults in their order. */
  function Attempt(f: Formats, s: State, faults: Faults): State {
    var s1 := Advance(f, s, true);
    var s2 := Advance(f, s1, faults.loadOk);
    var s3 := if s2.phase.StoreWasEmpty? then Advance(f, s2, faults.openOk) else s2;
    var s4 := if s3.phase.Parsed? then Advance(f, s3, faults.storeOk) else s3;
    EraseAttempt(f, s4, faults)
  }

  lemma EraseAttemptIsTheErase(f: Formats, s: State, outcome: MigrationOutcome, faults: Faults)
    requires s.phase == Erasing(outcome) && s.file.Some?
    ensures var (file, result) := AfterErase(s.file.value, outcome, faults);
            EraseAttempt(f, s, faults) == State(s.store, file, Serving(result))
  {
    var s5 := Advance(f, s, faults.truncateOk);
    if faults.truncateOk {
      assert s5.phase == Truncated(outcome, |s.file.value.text|);
    } else {
      assert s5 == s.(phase := Removing(outcome));
    }
  }

  lemma ReadAttemptIsTheMigration(f: Formats, s: State, faults: Faults)
    requires s.phase.StoreWasEmpty? && s.store.None? && s.file.Some?
    ensures var s3 := Advance(f, s, faults.openOk);
            var s4 := if s3.phase.Parsed? then Advance(f, s3, faults.storeOk) else s3;
            if faults.openOk && ReadLegacy(f, s.file.value).Success? && faults.storeOk
            then s4 == State(Some(f.toJson(ReadLegacy(f, s.file.value).value)), s.file, Erasing(Migrated))
            else s4 == State(s.store, s.file, Serving(Failure(
                   if !faults.openOk then Io
                   else if ReadLegacy(f, s.file.value).Failure? then ReadLegacy(f, s.file.value).error else KeyStore)))
  {
  }

  lemma AttemptIsTheMigration(f: Formats, s: State, faults: Faults)
    requires s.phase.Starting?
    ensures var s' := Attempt(f, s, faults);
            var (store, file, result) := AfterMigration(f, s.store, s.file, faults);
            s' == State(store, file, Serving(result))
  {
    if s.file.Some? && faults.loadOk {
      var s2 := Advance(f, Advance(f, s, true), true);
      if s.store.Some? {
        EraseAttemptIsTheErase(f, s2, StalePlaintextPresent, faults);
      } else {
        ReadAttemptIsTheMigration(f, s2, faults);
        var s3 := Advance(f, s2, faults.openOk);
        if s3.phase.Parsed? && faults.storeOk {
          EraseAttemptIsTheErase(f, Advance(f, s3, true), Migrated, faults);
        }
      }
    }
  }

  /** Wherever a process dies, the next one's attempt is the migration of the store and the file it finds. */
  lemma RestartIsTheMigration(f: Formats, s: State, faults: Faults)
    ensures var s' := Attempt(f, Step(f, Step(f, s, Crashes), Boots), faults);
            var (store, file, result) := AfterMigration(f, s.store, s.file, faults);
            s' == State(store, file, Serving(result))
  {
    AttemptIsTheMigration(f, s.(phase := Starting), faults);
  }

  /** While the service runs, what the operator saves is what is loaded, if the store takes it and no field
      is blank; otherwise nothing changes. */
  lemma SavedCredentialsAreLoaded(f: Formats, s: State, c: Credentials, storeOk: bool)
    requires JsonRoundTrips(f) && s.phase.Serving?
    ensures var s' := Step(f, s, OperatorSaves(c, storeOk));
            if storeOk && IsFilled(c) then Loaded(f, s'.store) == Success(Some(c)) && s'.file == s.file else s' == s
  {
  }

  // ---------- where the promise ends ----------

  /** The migration asks whether the store holds anything, not whether it can be read: an
      undisturbed run loses the only readable copy exactly when the store's blob is unreadable and
      the file is not. */
  lemma MigrationLosesTheOnlyCopyIff(f: Formats, store: Option<string>, file: Option<LegacyFile>)
    requires JsonRoundTrips(f)
    ensures (AnyReadableCopy(f, store, file) && !AnyReadableCopy(f, AfterMigration(f, store, file, NO_FAULTS).0,
                                                                    AfterMigration(f, store, file, NO_FAULTS).1))
       <==> (store.Some? && StoredCredentials(f, store.value).None? && file.Some? && ReadLegacy(f, file.value).Success?)
  {
    if file.Some? {
      ReadLegacyIsNotBlank(f, file.value);
    }
  }

  predicate AnyReadableCopy(f: Formats, store: Option<string>, file: Option<LegacyFile>) {
    (store.Some? && StoredCredentials(f, store.value).Some?) || (file.Some? && ReadLegacy(f, file.value).Success?)
  }

  /** An operator's clear is undone by the next start exactly when a readable file is still lying
      there, which an earlier attempt that could not erase it leaves behind. */
  lemma ClearIsUndoneIffAReadableFileRemains(f: Formats, s: State)
    requires JsonRoundTrips(f) && s.phase.Serving?
    ensures var cleared := Step(f, s, OperatorClears(true));
            Settled(f, cleared).0.Some? <==> s.file.Some? && ReadLegacy(f, s.file.value).Success?
  {
  }
}
