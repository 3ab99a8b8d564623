/**
 * `saveLead`: the per-tenant ledger file is read (an absent file is the empty
 * list), the record is stamped with its creation time and pushed at the
 * tail, and the list is written back over the file. Any failure is
 * swallowed; a write that fails after the file was opened leaves it
 * truncated. The files are a map from file name to content; the clock and the
 * way the write ends are parameters.
 */
module LeadStore {
  import opened Wrappers
  import opened JsString
  import opened LeadFields

  /** A stored record: the lead's fields plus `createdAt`. */
  type Record = map<string, string>

  const CreatedAt := "createdAt"

  /**
   * What a ledger file holds: nothing, a JSON list of records, text that is
   * not JSON, or JSON that is not a list.
   */
  datatype LedgerFile = Missing | Stored(leads: seq<Record>) | Unreadable | NotAList

  type Store = map<string, LedgerFile>

  function FileAt(store: Store, name: string): LedgerFile {
    if name in store then store[name] else Missing
  }

  /** `{ ...lead, createdAt }`. */
  function Stamp(lead: Fields, createdAt: string): (r: Record)
    ensures forall k :: k in r <==> k in lead || k == CreatedAt
    ensures r[CreatedAt] == createdAt
    ensures forall k :: k in lead && k != CreatedAt ==> r[k] == lead[k]
  {
    lead[CreatedAt := createdAt]
  }

  /** A parsed lead never has a `createdAt` key (its keys are lower-case), so stamping keeps all of it. */
  lemma StampKeepsLead(lead: Fields, createdAt: string)
    requires WellKeyed(lead)
    ensures CreatedAt !in lead
    ensures |Stamp(lead, createdAt).Keys| == |lead.Keys| + 1
    ensures forall k :: k in lead ==> Stamp(lead, createdAt)[k] == lead[k]
  {
    assert IsUpper(CreatedAt[7]);
    var r := Stamp(lead, createdAt);
    assert r.Keys == lead.Keys + {CreatedAt};
  }

  /** The list `saveLead` starts from, if it gets that far. */
  function Ledger(f: LedgerFile): (r: Option<seq<Record>>)
    ensures r.Some? <==> f.Missing? || f.Stored?
    ensures f.Missing? ==> r == Some([])
    ensures f.Stored? ==> r == Some(f.leads)
  {
    match f
    case Missing => Some([])
    case Stored(leads) => Some(leads)
    case _ => None
  }

  /**
   * How `writeFileSync` ends: the new text is written; the file cannot be
   * opened and is left as it was; or it is opened, which truncates it, and the
   * write then fails, leaving it empty or holding a cut-off prefix of the JSON.
   */
  datatype WriteResult = Written | NotOpened | Truncated(emptied: bool)

  /**
   * What a truncated ledger reads as: an empty file reads as no leads, and a
   * proper prefix of the JSON text (it starts with `[` and is not closed)
   * does not parse.
   */
  function CutFile(emptied: bool): (f: LedgerFile)
    ensures Ledger(f).Some? <==> emptied
    ensures emptied ==> Ledger(f) == Some([])
  {
    if emptied then Missing else Unreadable
  }

  /** `saveLead(lead, fileName)` at time `createdAt`, with `writeFileSync` ending as `write` says. */
  function SaveLead(store: Store, lead: Fields, fileName: string, createdAt: string, write: WriteResult): (s': Store)
    ensures forall g :: g != fileName ==> FileAt(s', g) == FileAt(store, g)
    ensures Ledger(FileAt(store, fileName)).None? || write.NotOpened? ==> s' == store
    ensures Ledger(FileAt(store, fileName)).Some? && write.Written? ==>
              FileAt(s', fileName) == Stored(Ledger(FileAt(store, fileName)).value + [Stamp(lead, createdAt)])
    ensures Ledger(FileAt(store, fileName)).Some? && write.Truncated? ==>
              FileAt(s', fileName) == CutFile(write.emptied)
  {
    match Ledger(FileAt(store, fileName))
    case None => store
    case Some(leads) =>
      match write
      case Written => store[fileName := Stored(leads + [Stamp(lead, createdAt)])]
      case NotOpened => store
      case Truncated(emptied) => store[fileName := CutFile(emptied)]
  }

  /** A save that succeeds keeps every earlier record in place and adds exactly one at the end. */
  lemma SaveLeadAppends(store: Store, lead: Fields, fileName: string, createdAt: string)
    requires Ledger(FileAt(store, fileName)).Some?
    ensures var before := Ledger(FileAt(store, fileName)).value;
            var after := Ledger(FileAt(SaveLead(store, lead, fileName, createdAt, Written), fileName)).value;
              && |after| == |before| + 1
              && after[..|before|] == before
              && after[|before|] == Stamp(lead, createdAt)
  {
    var before := Ledger(FileAt(store, fileName)).value;
    var after := before + [Stamp(lead, createdAt)];
    assert after[..|before|] == before;
  }

  /** One lead to save: its fields, its time, and how its write ends. */
  datatype Save = Save(lead: Fields, createdAt: string, write: WriteResult)

  function SaveAll(store: Store, fileName: string, saves: seq<Save>): Store
    decreases |saves|
  {
    if saves == [] then store
    else SaveAll(SaveLead(store, saves[0].lead, fileName, saves[0].createdAt, saves[0].write), fileName, saves[1..])
  }

  /** The records of the saves whose writes succeed, in order. */
  function Appended(saves: seq<Save>): seq<Record> {
    if saves == [] then []
    else (if saves[0].write.Written? then [Stamp(saves[0].lead, saves[0].createdAt)] else []) + Appended(saves[1..])
  }

  /** No write in the run is cut off after truncating the file. */
  ghost predicate NoCut(saves: seq<Save>) {
    forall i :: 0 <= i < |saves| ==> !saves[i].write.Truncated?
  }

  /**
   * Saves in sequence into a readable ledger touch no other file; when no
   * write is cut off they leave the old list followed by the records whose
   * writes succeeded, in the order they were saved.
   */
  lemma SaveAllAppends(store: Store, fileName: string, saves: seq<Save>)
    requires Ledger(FileAt(store, fileName)).Some?
    ensures NoCut(saves) ==>
              Ledger(FileAt(SaveAll(store, fileName, saves), fileName))
                == Some(Ledger(FileAt(store, fileName)).value + Appended(saves))
    ensures forall g :: g != fileName ==> FileAt(SaveAll(store, fileName, saves), g) == FileAt(store, g)
  {
    SaveAllKeepsOthers(store, fileName, saves);
    if NoCut(saves) {
      AppendsWithoutCut(store, fileName, saves);
    }
  }

  lemma {:induction false} SaveAllKeepsOthers(store: Store, fileName: string, saves: seq<Save>)
    ensures forall g :: g != fileName ==> FileAt(SaveAll(store, fileName, saves), g) == FileAt(store, g)
    decreases |saves|
  {
    if saves != [] {
      var s := saves[0];
      SaveAllKeepsOthers(SaveLead(store, s.lead, fileName, s.createdAt, s.write), fileName, saves[1..]);
    }
  }

  lemma {:induction false} AppendsWithoutCut(store: Store, fileName: string, saves: seq<Save>)
    requires Ledger(FileAt(store, fileName)).Some? && NoCut(saves)
    ensures Ledger(FileAt(SaveAll(store, fileName, saves), fileName))
              == Some(Ledger(FileAt(store, fileName)).value + Appended(saves))
    decreases |saves|
  {
    var before := Ledger(FileAt(store, fileName)).value;
    if saves == [] {
      assert before + [] == before;
    } else {
      var s := saves[0];
      var next := SaveLead(store, s.lead, fileName, s.createdAt, s.write);
      var first := if s.write.Written? then [Stamp(s.lead, s.createdAt)] else [];
      assert !s.write.Truncated?;
      assert Ledger(FileAt(next, fileName)) == Some(before + first);
      assert Appended(saves) == first + Appended(saves[1..]);
      assert NoCut(saves[1..]) by {
        forall i | 0 <= i < |saves[1..]| ensures !saves[1..][i].write.Truncated? {
          assert saves[1..][i] == saves[i + 1];
        }
      }
      AppendsWithoutCut(next, fileName, saves[1..]);
      assert (before + first) + Appended(saves[1..]) == before + (first + Appended(saves[1..]));
    }
  }

  /** A run of saves is the run of its first `k` saves followed by the rest. */
  lemma {:induction false} SaveAllSplit(store: Store, fileName: string, saves: seq<Save>, k: int)
    requires 0 <= k <= |saves|
    ensures SaveAll(store, fileName, saves) == SaveAll(SaveAll(store, fileName, saves[..k]), fileName, saves[k..])
    decreases k
  {
    if k == 0 {
      assert saves[..0] == [] && saves[0..] == saves;
    } else {
      var next := SaveLead(store, saves[0].lead, fileName, saves[0].createdAt, saves[0].write);
      SaveAllSplit(next, fileName, saves[1..], k - 1);
      assert saves[..k][0] == saves[0] && saves[..k][1..] == saves[1..][..k - 1];
      assert saves[1..][k - 1..] == saves[k..];
    }
  }

  /** Saves none of which leaves a cut-off JSON text keep a readable ledger readable. */
  lemma {:induction false} StaysReadable(store: Store, fileName: string, saves: seq<Save>)
    requires Ledger(FileAt(store, fileName)).Some?
    requires forall i :: 0 <= i < |saves| ==> saves[i].write != Truncated(false)
    ensures Ledger(FileAt(SaveAll(store, fileName, saves), fileName)).Some?
    decreases |saves|
  {
    if saves != [] {
      var next := SaveLead(store, saves[0].lead, fileName, saves[0].createdAt, saves[0].write);
      assert forall i :: 0 <= i < |saves[1..]| ==> saves[1..][i] == saves[i + 1];
      StaysReadable(next, fileName, saves[1..]);
    }
  }

  /**
   * A write that fails after emptying the ledger loses every lead saved
   * before it: once the run is over the ledger holds only the records
   * written after the last such failure.
   */
  lemma TruncationForgets(store: Store, fileName: string, saves: seq<Save>, k: int)
    requires Ledger(FileAt(store, fileName)).Some?
    requires 0 <= k < |saves| && saves[k].write == Truncated(true)
    requires forall i :: 0 <= i < k ==> saves[i].write != Truncated(false)
    requires NoCut(saves[k + 1..])
    ensures Ledger(FileAt(SaveAll(store, fileName, saves), fileName)) == Some(Appended(saves[k + 1..]))
  {
    var mid := SaveAll(store, fileName, saves[..k]);
    StaysReadable(store, fileName, saves[..k]);
    SaveAllSplit(store, fileName, saves, k);
    var s := saves[k];
    var cut := SaveLead(mid, s.lead, fileName, s.createdAt, s.write);
    assert saves[k..][0] == s && saves[k..][1..] == saves[k + 1..];
    assert SaveAll(mid, fileName, saves[k..]) == SaveAll(cut, fileName, saves[k + 1..]);
    assert Ledger(FileAt(cut, fileName)) == Some([]);
    SaveAllAppends(cut, fileName, saves[k + 1..]);
    assert [] + Appended(saves[k + 1..]) == Appended(saves[k + 1..]);
  }

  /** A write that fails after writing part of the JSON leaves a ledger that no later save can read or repair. */
  lemma CutLedgerLost(store: Store, fileName: string, saves: seq<Save>, k: int)
    requires Ledger(FileAt(store, fileName)).Some?
    requires 0 <= k < |saves| && saves[k].write == Truncated(false)
    requires forall i :: 0 <= i < k ==> saves[i].write != Truncated(false)
    ensures FileAt(SaveAll(store, fileName, saves), fileName) == Unreadable
  {
    var mid := SaveAll(store, fileName, saves[..k]);
    StaysReadable(store, fileName, saves[..k]);
    SaveAllSplit(store, fileName, saves, k);
    var s := saves[k];
    var cut := SaveLead(mid, s.lead, fileName, s.createdAt, s.write);
    assert saves[k..][0] == s && saves[k..][1..] == saves[k + 1..];
    assert SaveAll(mid, fileName, saves[k..]) == SaveAll(cut, fileName, saves[k + 1..]);
    BrokenLedgerKept(cut, fileName, saves[k + 1..]);
  }

  // ---- A save that replaces the ledger whole ----

  /**
   * `saveLead` with the new text written to a fresh file that is then renamed
   * over the ledger: a failed write, at whatever point, leaves the old ledger.
   */
  function SafeSaveLead(store: Store, lead: Fields, fileName: string, createdAt: string, write: WriteResult): (s': Store)
    ensures forall g :: g != fileName ==> FileAt(s', g) == FileAt(store, g)
    ensures Ledger(FileAt(store, fileName)).None? || !write.Written? ==> s' == store
    ensures Ledger(FileAt(store, fileName)).Some? && write.Written? ==>
              FileAt(s', fileName) == Stored(Ledger(FileAt(store, fileName)).value + [Stamp(lead, createdAt)])
  {
    match Ledger(FileAt(store, fileName))
    case None => store
    case Some(leads) => if write.Written? then store[fileName := Stored(leads + [Stamp(lead, createdAt)])] else store
  }

  function SafeSaveAll(store: Store, fileName: string, saves: seq<Save>): Store
    decreases |saves|
  {
    if saves == [] then store
    else SafeSaveAll(SafeSaveLead(store, saves[0].lead, fileName, saves[0].createdAt, saves[0].write), fileName, saves[1..])
  }

  /** With the whole-file replace, every run of saves keeps the old list and appends the written records, whatever fails. */
  lemma {:induction false} SafeSavesKeepLedger(store: Store, fileName: string, saves: seq<Save>)
    requires Ledger(FileAt(store, fileName)).Some?
    ensures Ledger(FileAt(SafeSaveAll(store, fileName, saves), fileName))
              == Some(Ledger(FileAt(store, fileName)).value + Appended(saves))
    decreases |saves|
  {
    var before := Ledger(FileAt(store, fileName)).value;
    if saves == [] {
      assert before + [] == before;
    } else {
      var s := saves[0];
      var next := SafeSaveLead(store, s.lead, fileName, s.createdAt, s.write);
      var first := if s.write.Written? then [Stamp(s.lead, s.createdAt)] else [];
      assert Ledger(FileAt(next, fileName)) == Some(before + first);
      assert Appended(saves) == first + Appended(saves[1..]);
      SafeSavesKeepLedger(next, fileName, saves[1..]);
      assert (before + first) + Appended(saves[1..]) == before + (first + Appended(saves[1..]));
    }
  }

  /** A ledger that cannot be read as a list is never overwritten. */
  lemma {:induction false} BrokenLedgerKept(store: Store, fileName: string, saves: seq<Save>)
    requires Ledger(FileAt(store, fileName)).None?
    ensures SaveAll(store, fileName, saves) == store
    decreases |saves|
  {
    if saves != [] {
      BrokenLedgerKept(store, fileName, saves[1..]);
    }
  }
}
