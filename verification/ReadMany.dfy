/** Reading many notes under a limit on files and on bytes, with an account of everything skipped. */
module ReadMany {
  import opened Common

  const DEFAULT_MAX_FILES := 20
  const MAX_FILES_CAP := 100
  const DEFAULT_MAX_BYTES := 65536
  const MAX_BYTES_CAP := 262144
  const MAX_SKIPPED_DETAILS := 100

  datatype Failure = NotFound | Io | OtherFailure

  datatype Answer<+T> = Got(value: T) | Failed(why: Failure)

  /** What the vault answers: the canonical path of a candidate, and the size and content at a path. */
  datatype Vault = Vault(canonical: string -> Answer<string>, size: string -> Answer<nat>, read: string -> Answer<string>)

  datatype Reason = ByteLimit | FileLimit | Missing | Unreadable

  datatype Note = Note(path: string, content: string)

  datatype Skip = Skip(path: string, reason: Reason)

  datatype Fate = Taken(note: Note) | Skipped(skip: Skip) | Abort

  datatype Output = Output(notes: seq<Note>, skipped: seq<Skip>, skippedCount: nat, contentBytes: nat)

  function ValidatedLimit(requested: Option<nat>, default_: nat, cap: nat): Result<nat> {
    var value := if requested.Some? then requested.value else default_;
    if value == 0 then Err("must be greater than zero")
    else Ok(if value < cap then value else cap)
  }

  /** A file error skips the note; any other error ends the call. */
  function FateOfFailure(why: Failure, path: string): Fate {
    match why
    case NotFound => Skipped(Skip(path, Missing))
    case Io => Skipped(Skip(path, Unreadable))
    case OtherFailure => Abort
  }

  function FateOf(vault: Vault, candidate: string, remaining: nat): Fate {
    match vault.canonical(candidate)
    case Failed(why) => FateOfFailure(why, candidate)
    case Got(path) =>
      match vault.size(path)
      case Failed(why) => FateOfFailure(why, path)
      case Got(size) =>
        if size > remaining then Skipped(Skip(path, ByteLimit))
        else
          match vault.read(path)
          case Failed(why) => FateOfFailure(why, path)
          case Got(content) =>
            if |content| > remaining then Skipped(Skip(path, ByteLimit)) else Taken(Note(path, content))
  }

  // ----- what happens to each candidate -----

  function Notes(fates: seq<Fate>): seq<Note> {
    if |fates| == 0 then []
    else Notes(fates[..|fates| - 1]) + (if fates[|fates| - 1].Taken? then [fates[|fates| - 1].note] else [])
  }

  function Skips(fates: seq<Fate>): seq<Skip> {
    if |fates| == 0 then []
    else Skips(fates[..|fates| - 1]) + (if fates[|fates| - 1].Skipped? then [fates[|fates| - 1].skip] else [])
  }

  function Bytes(notes: seq<Note>): nat {
    if |notes| == 0 then 0 else Bytes(notes[..|notes| - 1]) + |notes[|notes| - 1].content|
  }

  /** Candidate `i` meets the budget that the notes taken before it leave. */
  predicate Meets(vault: Vault, candidates: seq<string>, maxBytes: nat, fates: seq<Fate>, i: nat)
    requires i < |fates| && i < |candidates|
  {
    var before := Bytes(Notes(fates[..i]));
    before <= maxBytes && fates[i] == FateOf(vault, candidates[i], maxBytes - before)
  }

  ghost predicate Fated(vault: Vault, candidates: seq<string>, maxBytes: nat, fates: seq<Fate>) {
    |fates| <= |candidates| && forall i :: 0 <= i < |fates| ==> Meets(vault, candidates, maxBytes, fates, i)
  }

  function FirstSkips(skips: seq<Skip>): seq<Skip> {
    if |skips| <= MAX_SKIPPED_DETAILS then skips else skips[..MAX_SKIPPED_DETAILS]
  }

  function OverLimit(candidates: seq<string>, from: nat): seq<Skip>
    requires from <= |candidates|
  {
    seq(|candidates| - from, i requires 0 <= i < |candidates| - from => Skip(candidates[from + i], FileLimit))
  }

  lemma BytesSnoc(notes: seq<Note>, note: Note)
    ensures Bytes(notes + [note]) == Bytes(notes) + |note.content|
  {
    assert (notes + [note])[..|notes|] == notes;
  }

  lemma FateSnoc(fates: seq<Fate>, fate: Fate)
    ensures fate.Taken? ==>
              && Notes(fates + [fate]) == Notes(fates) + [fate.note]
              && Bytes(Notes(fates + [fate])) == Bytes(Notes(fates)) + |fate.note.content|
    ensures !fate.Taken? ==> Notes(fates + [fate]) == Notes(fates)
    ensures fate.Skipped? ==> Skips(fates + [fate]) == Skips(fates) + [fate.skip]
    ensures !fate.Skipped? ==> Skips(fates + [fate]) == Skips(fates)
  {
    assert (fates + [fate])[..|fates|] == fates;
    if fate.Taken? {
      BytesSnoc(Notes(fates), fate.note);
    }
  }

  lemma MeetsStill(vault: Vault, candidates: seq<string>, maxBytes: nat, fates: seq<Fate>, fate: Fate, i: nat)
    requires i < |fates| < |candidates| && Meets(vault, candidates, maxBytes, fates, i)
    ensures Meets(vault, candidates, maxBytes, fates + [fate], i)
  {
    hide Notes, Bytes, FateOf;
    assert (fates + [fate])[..i] == fates[..i];
  }

  lemma FatedSnoc(vault: Vault, candidates: seq<string>, maxBytes: nat, fates: seq<Fate>, fate: Fate)
    requires Fated(vault, candidates, maxBytes, fates) && |fates| < |candidates| && Bytes(Notes(fates)) <= maxBytes
    requires fate == FateOf(vault, candidates[|fates|], maxBytes - Bytes(Notes(fates)))
    ensures Fated(vault, candidates, maxBytes, fates + [fate])
  {
    hide Notes, Bytes, FateOf;
    assert (fates + [fate])[..|fates|] == fates;
    assert Meets(vault, candidates, maxBytes, fates + [fate], |fates|);
    hide Meets;
    forall i | 0 <= i < |fates| ensures Meets(vault, candidates, maxBytes, fates + [fate], i) {
      MeetsStill(vault, candidates, maxBytes, fates, fate, i);
    }
  }

  /** Counts a skip, and keeps its details while there is room. */
  method RecordSkipped(skipped: seq<Skip>, skippedCount: nat, skip: Skip, ghost all: seq<Skip>)
    returns (skipped': seq<Skip>, skippedCount': nat)
    requires skipped == FirstSkips(all) && skippedCount == |all|
    ensures skipped' == FirstSkips(all + [skip]) && skippedCount' == |all + [skip]|
  {
    skippedCount' := skippedCount + 1;
    skipped' := skipped;
    if |skipped| < MAX_SKIPPED_DETAILS {
      skipped' := skipped + [skip];
    } else {
      assert (all + [skip])[..MAX_SKIPPED_DETAILS] == all[..MAX_SKIPPED_DETAILS];
    }
  }

  function Inspected(candidates: seq<string>, maxFiles: nat): (n: nat)
    ensures n <= |candidates|
  {
    if |candidates| < maxFiles then |candidates| else maxFiles
  }

  ghost predicate NoAbort(fates: seq<Fate>) {
    forall i :: 0 <= i < |fates| ==> !fates[i].Abort?
  }

  /** The last fate, and no earlier one, ended the call. */
  ghost predicate EndsInAbort(fates: seq<Fate>) {
    |fates| > 0 && fates[|fates| - 1].Abort? && NoAbort(fates[..|fates| - 1])
  }

  /** The loop over the inspected candidates; it stops at an error that is not about one file. */
  method Inspect(vault: Vault, candidates: seq<string>, inspected: nat, maxBytes: nat)
    returns (ok: bool, notes: seq<Note>, skipped: seq<Skip>, skippedCount: nat, contentBytes: nat, ghost fates: seq<Fate>)
    requires inspected <= |candidates|
    ensures Fated(vault, candidates, maxBytes, fates) && |fates| <= inspected
    ensures if ok then |fates| == inspected && NoAbort(fates) else EndsInAbort(fates)
    ensures notes == Notes(fates) && contentBytes == Bytes(notes)
    ensures ok ==> skipped == FirstSkips(Skips(fates)) && skippedCount == |Skips(fates)|
  {
    hide FateOf, FirstSkips;
    fates, notes, skipped, skippedCount, contentBytes := [], [], [], 0, 0;
    NoSkips();
    var i := 0;
    while i < inspected
      invariant 0 <= i <= inspected && |fates| == i
      invariant Fated(vault, candidates, maxBytes, fates) && NoAbort(fates)
      invariant notes == Notes(fates) && contentBytes == Bytes(notes) && contentBytes <= maxBytes
      invariant skipped == FirstSkips(Skips(fates)) && skippedCount == |Skips(fates)|
    {
      var remaining := maxBytes - contentBytes;
      var fate := FateOf(vault, candidates[i], remaining);
      FatedSnoc(vault, candidates, maxBytes, fates, fate);
      FateSnoc(fates, fate);
      TakenFits(vault, candidates[i], remaining);
      hide Fated, Notes, Skips, Bytes;
      ghost var before := fates;
      fates := fates + [fate];
      assert fates[i] == fate;
      match fate {
        case Abort =>
          assert fates[..|fates| - 1] == before;
          return false, notes, skipped, skippedCount, contentBytes, fates;
        case Skipped(skip) => skipped, skippedCount := RecordSkipped(skipped, skippedCount, skip, Skips(before));
        case Taken(note) =>
          contentBytes := contentBytes + |note.content|;
          notes := notes + [note];
      }
      i := i + 1;
    }
    ok := true;
  }

  lemma NoSkips()
    ensures FirstSkips([]) == []
  {
  }

  /**
   * The account of one call: it fails on a zero limit or on an error that is not about one file; otherwise the
   * first candidates up to the file limit each meet their fate, and the others are skipped for the file limit.
   */
  ghost predicate Accounted(vault: Vault, candidates: seq<string>, maxFiles: nat, maxBytes: nat, fates: seq<Fate>,
    r: Result<Output>) {
    var inspected := Inspected(candidates, maxFiles);
    && Fated(vault, candidates, maxBytes, fates) && |fates| <= inspected
    && (if r.Ok? then |fates| == inspected && NoAbort(fates) else EndsInAbort(fates))
    && (r.Ok? ==>
          && r.value.notes == Notes(fates) && r.value.contentBytes == Bytes(Notes(fates))
          && r.value.skipped == FirstSkips(Skips(fates) + OverLimit(candidates, inspected))
          && r.value.skippedCount == |Skips(fates)| + |candidates| - inspected)
  }

  /** The requested limit or the default, but not above the cap. */
  function AtMost(requested: Option<nat>, default_: nat, cap: nat): nat {
    if requested.None? then default_ else if requested.value <= cap then requested.value else cap
  }

  /**
   * The whole call: at most 20 files and 64 KiB unless asked otherwise, never more than 100 files and 256 KiB; refused
   * for a limit of zero, ended by an error that is not about one file, and otherwise serving every candidate.
   */
  method NoteReadMany(vault: Vault, candidates: seq<string>, maxFilesParam: Option<nat>, maxBytesParam: Option<nat>)
    returns (r: Result<Output>, ghost fates: seq<Fate>)
    ensures maxFilesParam == Some(0) || maxBytesParam == Some(0) ==> r.Err?
    ensures maxFilesParam != Some(0) && maxBytesParam != Some(0) ==>
              var files, bytes := AtMost(maxFilesParam, 20, 100), AtMost(maxBytesParam, 65536, 262144);
              && Accounted(vault, candidates, files, bytes, fates, r)
              && (if r.Ok? then Served(vault, candidates, files, bytes, r.value)
                  else CutShort(vault, candidates, files, bytes))
  {
    fates := [];
    var files := ValidatedLimit(maxFilesParam, DEFAULT_MAX_FILES, MAX_FILES_CAP);
    if files.Err? {
      return Err(files.error), fates;
    }
    var bytes := ValidatedLimit(maxBytesParam, DEFAULT_MAX_BYTES, MAX_BYTES_CAP);
    if bytes.Err? {
      return Err(bytes.error), fates;
    }
    hide FateOf, Fated, Notes, Skips, Bytes, FirstSkips;
    var inspected := Inspected(candidates, files.value);
    var ok, notes, skipped, skippedCount, contentBytes;
    ok, notes, skipped, skippedCount, contentBytes, fates := Inspect(vault, candidates, inspected, bytes.value);
    LimitsInForce(maxFilesParam, DEFAULT_MAX_FILES, MAX_FILES_CAP);
    LimitsInForce(maxBytesParam, DEFAULT_MAX_BYTES, MAX_BYTES_CAP);
    if !ok {
      r := Err("vault error");
      AbortCutsShort(vault, candidates, files.value, bytes.value, fates, r);
      return r, fates;
    }
    var over := OverLimit(candidates, inspected);
    var slots := if |skipped| < MAX_SKIPPED_DETAILS then MAX_SKIPPED_DETAILS - |skipped| else 0;
    DetailSlots(Skips(fates), over, slots);
    skipped := skipped + if |over| <= slots then over else over[..slots];
    r := Ok(Output(notes, skipped, skippedCount + |candidates| - inspected, contentBytes));
    AccountedServes(vault, candidates, files.value, bytes.value, fates, r.value);
  }

  lemma TakenFits(vault: Vault, candidate: string, remaining: nat)
    ensures var fate := FateOf(vault, candidate, remaining); fate.Taken? ==> |fate.note.content| <= remaining
  {
  }

  lemma DetailSlots(skips: seq<Skip>, over: seq<Skip>, slots: nat)
    requires slots == if |FirstSkips(skips)| < MAX_SKIPPED_DETAILS then MAX_SKIPPED_DETAILS - |FirstSkips(skips)| else 0
    ensures FirstSkips(skips) + (if |over| <= slots then over else over[..slots]) == FirstSkips(skips + over)
  {
  }

  // ----- the account -----

  lemma {:induction false} FatesSplit(fates: seq<Fate>)
    requires forall i :: 0 <= i < |fates| ==> !fates[i].Abort?
    ensures |Notes(fates)| + |Skips(fates)| == |fates|
    decreases |fates|
  {
    if |fates| > 0 {
      FatesSplit(fates[..|fates| - 1]);
    }
  }

  /** The budget is never exceeded, so what remains of it is never negative. */
  lemma {:induction false} BudgetHolds(vault: Vault, candidates: seq<string>, maxBytes: nat, fates: seq<Fate>)
    requires Fated(vault, candidates, maxBytes, fates)
    ensures Bytes(Notes(fates)) <= maxBytes
    decreases |fates|
  {
    if |fates| > 0 {
      var front, last := fates[..|fates| - 1], fates[|fates| - 1];
      assert fates == front + [last];
      FateSnoc(front, last);
      assert Meets(vault, candidates, maxBytes, fates, |front|);
      TakenFits(vault, candidates[|front|], maxBytes - Bytes(Notes(front)));
    }
  }

  /**
   * The account of a successful call: every candidate is returned or counted as skipped, the byte count is exact and
   * within the budget, and the first hundred skips are detailed.
   */
  lemma Accounting(vault: Vault, candidates: seq<string>, maxFiles: nat, maxBytes: nat, fates: seq<Fate>, out: Output)
    requires Accounted(vault, candidates, maxFiles, maxBytes, fates, Ok(out))
    ensures |out.notes| + out.skippedCount == |candidates|
    ensures out.contentBytes == Bytes(out.notes) <= maxBytes
    ensures |out.skipped| == if out.skippedCount < MAX_SKIPPED_DETAILS then out.skippedCount else MAX_SKIPPED_DETAILS
  {
    FatesSplit(fates);
    BudgetHolds(vault, candidates, maxBytes, fates);
  }

  /** Returned notes keep the order of the candidates. */
  lemma {:induction false} NotesKeepOrder(fates: seq<Fate>) returns (at: seq<nat>)
    ensures |at| == |Notes(fates)|
    ensures forall i :: 0 <= i < |at| ==> at[i] < |fates| && fates[at[i]] == Taken(Notes(fates)[i])
    ensures forall i, j :: 0 <= i < j < |at| ==> at[i] < at[j]
    ensures forall k :: 0 <= k < |fates| && fates[k].Taken? ==> k in at
    decreases |fates|
  {
    at := [];
    if |fates| > 0 {
      var front := fates[..|fates| - 1];
      at := NotesKeepOrder(front);
      if fates[|fates| - 1].Taken? {
        at := at + [|fates| - 1];
      }
    }
  }

  /** The limits in force are positive and within their caps; only an explicit zero is refused. */
  lemma LimitsInForce(requested: Option<nat>, default_: nat, cap: nat)
    requires 0 < default_ <= cap
    ensures ValidatedLimit(requested, default_, cap).Err? <==> requested == Some(0)
    ensures ValidatedLimit(requested, default_, cap).Ok? ==>
              ValidatedLimit(requested, default_, cap).value == AtMost(requested, default_, cap)
    ensures requested != Some(0) ==> 1 <= AtMost(requested, default_, cap) <= cap
  {
  }

  // ----- the outcome, in terms of what the vault answers -----

  /** The candidate has a canonical path, and size and content at that path are obtained and within `left`. */
  predicate Fits(vault: Vault, candidate: string, left: nat, note: Note) {
    && vault.canonical(candidate) == Got(note.path)
    && vault.size(note.path).Got? && vault.size(note.path).value <= left
    && vault.read(note.path) == Got(note.content) && |note.content| <= left
  }

  ghost predicate NothingFits(vault: Vault, candidate: string, left: nat) {
    forall note :: !Fits(vault, candidate, left, note)
  }

  /** The size, or after a small enough size the content itself, is more than `left`. */
  predicate TooBig(vault: Vault, candidate: string, left: nat, path: string) {
    && vault.canonical(candidate) == Got(path) && vault.size(path).Got?
    && (vault.size(path).value > left || (vault.read(path).Got? && |vault.read(path).value| > left))
  }

  /** The first answer that is missing fails for this reason; it is reported under the path known by then. */
  predicate FailsFor(vault: Vault, candidate: string, left: nat, path: string, why: Failure) {
    || (vault.canonical(candidate) == Failed(why) && path == candidate)
    || (vault.canonical(candidate) == Got(path) && vault.size(path) == Failed(why))
    || (vault.canonical(candidate) == Got(path) && vault.size(path).Got? && vault.size(path).value <= left &&
        vault.read(path) == Failed(why))
  }

  /** An answer about this candidate is an error that is not about one file. */
  ghost predicate EndsCall(vault: Vault, candidate: string, left: nat) {
    exists path :: FailsFor(vault, candidate, left, path, OtherFailure)
  }

  /** Why an inspected candidate is skipped. */
  predicate SkippedFor(vault: Vault, candidate: string, left: nat, skip: Skip) {
    match skip.reason
    case ByteLimit => TooBig(vault, candidate, left, skip.path)
    case Missing => FailsFor(vault, candidate, left, skip.path, NotFound)
    case Unreadable => FailsFor(vault, candidate, left, skip.path, Io)
    case FileLimit => false
  }

  /** The fate of a candidate, case by case. */
  lemma FateIs(vault: Vault, candidate: string, left: nat)
    ensures forall note :: FateOf(vault, candidate, left) == Taken(note) <==> Fits(vault, candidate, left, note)
    ensures forall skip :: FateOf(vault, candidate, left) == Skipped(skip) <==> SkippedFor(vault, candidate, left, skip)
    ensures FateOf(vault, candidate, left).Abort? <==> EndsCall(vault, candidate, left)
  {
    if FateOf(vault, candidate, left).Abort? {
      var path := if vault.canonical(candidate).Got? then vault.canonical(candidate).value else candidate;
      assert FailsFor(vault, candidate, left, path, OtherFailure);
    }
  }

  ghost predicate Rising(at: seq<nat>, bound: nat) {
    (forall k :: 0 <= k < |at| ==> at[k] < bound) && (forall k, l :: 0 <= k < l < |at| ==> at[k] < at[l])
  }

  /**
   * The first `n` candidates have been served, `spent[i]` bytes being gone before candidate `i`: `at` are the positions
   * returned, in order and each with the note that fits there; `gone` are the other positions, in order, where nothing
   * fits, each with the reason it was skipped for.
   */
  ghost predicate ServedUpTo(
    vault: Vault, candidates: seq<string>, maxBytes: nat, n: nat, spent: seq<nat>, notes: seq<Note>, at: seq<nat>,
    skips: seq<Skip>, gone: seq<nat>)
  {
    && n <= |candidates| && |spent| == n + 1 && spent[0] == 0
    && (forall i: nat :: i <= n ==> spent[i] <= maxBytes)
    && Rising(at, n) && Rising(gone, n) && |at| == |notes| && |gone| == |skips|
    && (forall i: nat :: i < n ==> (i in gone <==> i !in at))
    && (forall k: nat :: k < |at| ==> Returned(vault, candidates, maxBytes, spent, at[k], notes[k]))
    && (forall k: nat :: k < |gone| ==> PassedOver(vault, candidates, maxBytes, spent, gone[k], skips[k]))
  }

  predicate Returned(vault: Vault, candidates: seq<string>, maxBytes: nat, spent: seq<nat>, i: nat, note: Note) {
    && i < |candidates| && i + 1 < |spent| && spent[i] <= maxBytes
    && Fits(vault, candidates[i], maxBytes - spent[i], note) && spent[i + 1] == spent[i] + |note.content|
  }

  ghost predicate PassedOver(
    vault: Vault, candidates: seq<string>, maxBytes: nat, spent: seq<nat>, i: nat, skip: Skip)
  {
    && i < |candidates| && i + 1 < |spent| && spent[i] <= maxBytes
    && SkippedFor(vault, candidates[i], maxBytes - spent[i], skip) && spent[i + 1] == spent[i]
    && NothingFits(vault, candidates[i], maxBytes - spent[i])
  }

  /**
   * Every candidate is accounted for: those up to the file limit are served in order against the byte budget, the rest
   * are skipped for the file limit; the first hundred skips are detailed, inspected ones first.
   */
  ghost predicate Served(vault: Vault, candidates: seq<string>, maxFiles: nat, maxBytes: nat, out: Output) {
    var n := if |candidates| < maxFiles then |candidates| else maxFiles;
    exists spent, at, skips, gone :: ServedAs(vault, candidates, maxBytes, n, out, spent, at, skips, gone)
  }

  ghost predicate ServedAs(
    vault: Vault, candidates: seq<string>, maxBytes: nat, n: nat, out: Output, spent: seq<nat>, at: seq<nat>,
    skips: seq<Skip>, gone: seq<nat>)
  {
    && ServedUpTo(vault, candidates, maxBytes, n, spent, out.notes, at, skips, gone)
    && out.contentBytes == spent[n] && Detailed(candidates, n, skips, out.skipped, out.skippedCount)
  }

  ghost predicate Detailed(candidates: seq<string>, n: nat, skips: seq<Skip>, skipped: seq<Skip>, count: nat) {
    && n <= |candidates| && count == |skips| + |candidates| - n
    && |skipped| == (if count < 100 then count else 100)
    && (forall k: nat :: k < |skipped| ==>
                           skipped[k] == if k < |skips| then skips[k] else Skip(candidates[n + k - |skips|], FileLimit))
  }

  /** The candidates before some position were served, and an answer about that one ended the call. */
  ghost predicate CutShort(vault: Vault, candidates: seq<string>, maxFiles: nat, maxBytes: nat) {
    exists n: nat, spent, notes, at, skips, gone ::
      n < maxFiles && CutAt(vault, candidates, maxBytes, n, spent, notes, at, skips, gone)
  }

  ghost predicate CutAt(
    vault: Vault, candidates: seq<string>, maxBytes: nat, n: nat, spent: seq<nat>, notes: seq<Note>, at: seq<nat>,
    skips: seq<Skip>, gone: seq<nat>)
  {
    && n < |candidates| && ServedUpTo(vault, candidates, maxBytes, n, spent, notes, at, skips, gone)
    && EndsCall(vault, candidates[n], maxBytes - spent[n])
  }

  lemma ReturnedStill(
    vault: Vault, candidates: seq<string>, maxBytes: nat, spent: seq<nat>, more: nat, i: nat, note: Note, skip: Skip)
    ensures Returned(vault, candidates, maxBytes, spent, i, note) ==>
              Returned(vault, candidates, maxBytes, spent + [more], i, note)
    ensures PassedOver(vault, candidates, maxBytes, spent, i, skip) ==>
              PassedOver(vault, candidates, maxBytes, spent + [more], i, skip)
  {
    hide Fits, SkippedFor;
  }

  lemma ServeNote(
    vault: Vault, candidates: seq<string>, maxBytes: nat, n: nat, spent: seq<nat>, notes: seq<Note>, at: seq<nat>,
    skips: seq<Skip>, gone: seq<nat>, note: Note)
    requires ServedUpTo(vault, candidates, maxBytes, n, spent, notes, at, skips, gone) && n < |candidates|
    requires Fits(vault, candidates[n], maxBytes - spent[n], note)
    ensures ServedUpTo(
              vault, candidates, maxBytes, n + 1, spent + [spent[n] + |note.content|], notes + [note], at + [n], skips, gone)
  {
    var more := spent[n] + |note.content|;
    assert |note.content| <= maxBytes - spent[n];
    hide Fits, SkippedFor;
    var at', notes' := at + [n], notes + [note];
    assert Returned(vault, candidates, maxBytes, spent + [more], n, note);
    forall k: nat | k < |at'| ensures Returned(vault, candidates, maxBytes, spent + [more], at'[k], notes'[k]) {
      if k < |at| {
        ReturnedStill(vault, candidates, maxBytes, spent, more, at[k], notes[k], Skip("", FileLimit));
      }
    }
    forall k: nat | k < |gone| ensures PassedOver(vault, candidates, maxBytes, spent + [more], gone[k], skips[k]) {
      ReturnedStill(vault, candidates, maxBytes, spent, more, gone[k], note, skips[k]);
    }
    assert forall i: nat :: i in at' <==> i in at || i == n;
  }

  lemma ServeSkip(
    vault: Vault, candidates: seq<string>, maxBytes: nat, n: nat, spent: seq<nat>, notes: seq<Note>, at: seq<nat>,
    skips: seq<Skip>, gone: seq<nat>, skip: Skip)
    requires ServedUpTo(vault, candidates, maxBytes, n, spent, notes, at, skips, gone) && n < |candidates|
    requires SkippedFor(vault, candidates[n], maxBytes - spent[n], skip)
    requires NothingFits(vault, candidates[n], maxBytes - spent[n])
    ensures ServedUpTo(
              vault, candidates, maxBytes, n + 1, spent + [spent[n]], notes, at, skips + [skip], gone + [n])
  {
    hide Fits, SkippedFor;
    var more := spent[n];
    var gone', skips' := gone + [n], skips + [skip];
    assert PassedOver(vault, candidates, maxBytes, spent + [more], n, skip);
    forall k: nat | k < |at| ensures Returned(vault, candidates, maxBytes, spent + [more], at[k], notes[k]) {
      ReturnedStill(vault, candidates, maxBytes, spent, more, at[k], notes[k], skip);
    }
    forall k: nat | k < |gone'| ensures PassedOver(vault, candidates, maxBytes, spent + [more], gone'[k], skips'[k]) {
      if k < |gone| {
        ReturnedStill(vault, candidates, maxBytes, spent, more, gone[k], Note("", ""), skips[k]);
      }
    }
    assert forall i: nat :: i in gone' <==> i in gone || i == n;
  }

  lemma FatedFront(vault: Vault, candidates: seq<string>, maxBytes: nat, fates: seq<Fate>)
    requires Fated(vault, candidates, maxBytes, fates) && |fates| > 0
    ensures Fated(vault, candidates, maxBytes, fates[..|fates| - 1])
    ensures |fates| <= |candidates| && Bytes(Notes(fates[..|fates| - 1])) <= maxBytes
    ensures fates[|fates| - 1] ==
            FateOf(vault, candidates[|fates| - 1], maxBytes - Bytes(Notes(fates[..|fates| - 1])))
  {
    hide FateOf, Notes, Bytes;
    var front := fates[..|fates| - 1];
    assert Meets(vault, candidates, maxBytes, fates, |fates| - 1);
    forall i | 0 <= i < |front| ensures Meets(vault, candidates, maxBytes, front, i) {
      assert Meets(vault, candidates, maxBytes, fates, i) && fates[..i] == front[..i];
    }
  }

  lemma ServeFate(
    vault: Vault, candidates: seq<string>, maxBytes: nat, n: nat, spent: seq<nat>, notes: seq<Note>, at: seq<nat>,
    skips: seq<Skip>, gone: seq<nat>, fate: Fate)
    requires ServedUpTo(vault, candidates, maxBytes, n, spent, notes, at, skips, gone) && n < |candidates|
    requires fate == FateOf(vault, candidates[n], maxBytes - spent[n]) && !fate.Abort?
    ensures fate.Taken? ==>
              ServedUpTo(vault, candidates, maxBytes, n + 1, spent + [spent[n] + |fate.note.content|],
                         notes + [fate.note], at + [n], skips, gone)
    ensures fate.Skipped? ==>
              ServedUpTo(vault, candidates, maxBytes, n + 1, spent + [spent[n]], notes, at, skips + [fate.skip],
                         gone + [n])
  {
    var left := maxBytes - spent[n];
    FateIs(vault, candidates[n], left);
    hide ServedUpTo, FateOf, Fits, SkippedFor;
    if fate.Taken? {
      assert Fits(vault, candidates[n], left, fate.note);
      ServeNote(vault, candidates, maxBytes, n, spent, notes, at, skips, gone, fate.note);
    } else {
      assert SkippedFor(vault, candidates[n], left, fate.skip) && NothingFits(vault, candidates[n], left);
      ServeSkip(vault, candidates, maxBytes, n, spent, notes, at, skips, gone, fate.skip);
    }
  }

  ghost predicate FatesServed(
    vault: Vault, candidates: seq<string>, maxBytes: nat, fates: seq<Fate>, spent: seq<nat>, at: seq<nat>,
    gone: seq<nat>)
  {
    && ServedUpTo(vault, candidates, maxBytes, |fates|, spent, Notes(fates), at, Skips(fates), gone)
    && |spent| == |fates| + 1 && spent[|fates|] == Bytes(Notes(fates))
  }

  lemma NoneServed(vault: Vault, candidates: seq<string>, maxBytes: nat)
    ensures FatesServed(vault, candidates, maxBytes, [], [0], [], [])
  {
  }

  lemma TakenServed(
    vault: Vault, candidates: seq<string>, maxBytes: nat, front: seq<Fate>, last: Fate, fates: seq<Fate>,
    spent: seq<nat>, at: seq<nat>, gone: seq<nat>, spent': seq<nat>, at': seq<nat>, gone': seq<nat>)
    requires FatesServed(vault, candidates, maxBytes, front, spent, at, gone) && |front| < |candidates|
    requires Bytes(Notes(front)) <= maxBytes && last.Taken? && fates == front + [last]
    requires last == FateOf(vault, candidates[|front|], maxBytes - Bytes(Notes(front)))
    requires spent' == spent + [Bytes(Notes(front)) + |last.note.content|] && at' == at + [|front|] && gone' == gone
    ensures FatesServed(vault, candidates, maxBytes, fates, spent', at', gone')
  {
    hide ServedUpTo, FateOf, Notes, Skips, Bytes;
    FateSnoc(front, last);
    ServeFate(vault, candidates, maxBytes, |front|, spent, Notes(front), at, Skips(front), gone, last);
  }

  lemma SkippedServed(
    vault: Vault, candidates: seq<string>, maxBytes: nat, front: seq<Fate>, last: Fate, fates: seq<Fate>,
    spent: seq<nat>, at: seq<nat>, gone: seq<nat>, spent': seq<nat>, at': seq<nat>, gone': seq<nat>)
    requires FatesServed(vault, candidates, maxBytes, front, spent, at, gone) && |front| < |candidates|
    requires Bytes(Notes(front)) <= maxBytes && last.Skipped? && fates == front + [last]
    requires last == FateOf(vault, candidates[|front|], maxBytes - Bytes(Notes(front)))
    requires spent' == spent + [Bytes(Notes(front))] && at' == at && gone' == gone + [|front|]
    ensures FatesServed(vault, candidates, maxBytes, fates, spent', at', gone')
  {
    hide ServedUpTo, FateOf, Notes, Skips, Bytes;
    FateSnoc(front, last);
    ServeFate(vault, candidates, maxBytes, |front|, spent, Notes(front), at, Skips(front), gone, last);
  }

  lemma {:induction false} FatesServe(vault: Vault, candidates: seq<string>, maxBytes: nat, fates: seq<Fate>)
    returns (spent: seq<nat>, at: seq<nat>, gone: seq<nat>)
    requires Fated(vault, candidates, maxBytes, fates) && NoAbort(fates)
    ensures FatesServed(vault, candidates, maxBytes, fates, spent, at, gone)
    decreases |fates|
  {
    hide FatesServed, Fated, FateOf, Notes, Skips, Bytes;
    if |fates| == 0 {
      NoneServed(vault, candidates, maxBytes);
      spent, at, gone := [0], [], [];
    } else {
      var n := |fates| - 1;
      var front, last := fates[..n], fates[n];
      assert fates == front + [last];
      FatedFront(vault, candidates, maxBytes, fates);
      var spent0, at0, gone0 := FatesServe(vault, candidates, maxBytes, front);
      if last.Taken? {
        spent, at, gone := spent0 + [Bytes(Notes(front)) + |last.note.content|], at0 + [n], gone0;
        TakenServed(vault, candidates, maxBytes, front, last, fates, spent0, at0, gone0, spent, at, gone);
      } else {
        spent, at, gone := spent0 + [Bytes(Notes(front))], at0, gone0 + [n];
        SkippedServed(vault, candidates, maxBytes, front, last, fates, spent0, at0, gone0, spent, at, gone);
      }
    }
  }

  lemma FirstSkipsDetail(candidates: seq<string>, n: nat, skips: seq<Skip>)
    requires n <= |candidates|
    ensures Detailed(candidates, n, skips, FirstSkips(skips + OverLimit(candidates, n)), |skips| + |candidates| - n)
  {
  }

  lemma AccountedServes(
    vault: Vault, candidates: seq<string>, maxFiles: nat, maxBytes: nat, fates: seq<Fate>, out: Output)
    requires Accounted(vault, candidates, maxFiles, maxBytes, fates, Ok(out))
    ensures Served(vault, candidates, maxFiles, maxBytes, out)
  {
    var n := if |candidates| < maxFiles then |candidates| else maxFiles;
    assert n == |fates| && out.notes == Notes(fates) && out.contentBytes == Bytes(Notes(fates));
    hide Fated, ServedUpTo, Notes, Skips, Bytes, Detailed, FirstSkips, OverLimit;
    var spent, at, gone := FatesServe(vault, candidates, maxBytes, fates);
    FirstSkipsDetail(candidates, n, Skips(fates));
    assert ServedAs(vault, candidates, maxBytes, n, out, spent, at, Skips(fates), gone);
  }

  lemma AbortCutsShort(
    vault: Vault, candidates: seq<string>, maxFiles: nat, maxBytes: nat, fates: seq<Fate>, r: Result<Output>)
    requires Accounted(vault, candidates, maxFiles, maxBytes, fates, r) && r.Err?
    ensures CutShort(vault, candidates, maxFiles, maxBytes)
  {
    hide Fated, FateOf, Notes, Skips, Bytes, ServedUpTo, FailsFor, EndsCall;
    var n := |fates| - 1;
    var front := fates[..n];
    FatedFront(vault, candidates, maxBytes, fates);
    var spent, at, gone := FatesServe(vault, candidates, maxBytes, front);
    FateIs(vault, candidates[n], maxBytes - spent[n]);
    assert fates[n] == FateOf(vault, candidates[n], maxBytes - spent[n]);
    hide Fits, SkippedFor;
    assert CutAt(vault, candidates, maxBytes, n, spent, Notes(front), at, Skips(front), gone);
  }
}
