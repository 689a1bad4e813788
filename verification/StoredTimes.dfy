/**
 The stores order rows by time columns that hold texts; the models of the statements order them by the
 times. It is the same list, because the texts sort as the times they spell.
 */
module StoredTimes {
  import opened Prelude
  import opened TextOrder
  import opened Timestamps
  import opened Worklist
  import SettlementStore
  import Outbox

  /** `Oldest`, the stamps compared by how they are spelled. */
  ghost predicate OldestByText(stamps: map<string, nat>, text: nat -> string, keys: seq<string>, limit: nat) {
    && |keys| == Min(limit, |stamps|)
    && Distinct(keys)
    && (forall i :: 0 <= i < |keys| ==> keys[i] in stamps)
    && (forall i, j :: 0 <= i < j < |keys| ==> !TextLess(text(stamps[keys[j]]), text(stamps[keys[i]])))
    && (forall i, k :: 0 <= i < |keys| && k in stamps && k !in keys ==> !TextLess(text(stamps[k]), text(stamps[keys[i]])))
  }

  /** Over these stamps the texts sort as the stamps. */
  ghost predicate SortsOver(stamps: map<string, nat>, text: nat -> string) {
    forall j, k :: j in stamps && k in stamps ==> (TextLess(text(stamps[j]), text(stamps[k])) <==> stamps[j] < stamps[k])
  }

  lemma SameList(stamps: map<string, nat>, text: nat -> string, keys: seq<string>, limit: nat)
    requires SortsOver(stamps, text)
    ensures OldestByText(stamps, text, keys, limit) <==> Oldest(stamps, keys, limit)
  {
  }

  /** The watcher's worklist: nanoseconds, spelled with the shortest fraction and "+00:00". */
  lemma WorklistIsByText(rows: SettlementStore.Rows, work: seq<string>, limit: nat)
    requires forall k :: k in rows ==> FourDigitYear(rows[k].updatedAt / NANOS)
    ensures OldestByText(SettlementStore.SubmittedStamps(rows), StampText, work, limit)
       <==> SettlementStore.IsWorklist(rows, work, limit)
  {
    var stamps := SettlementStore.SubmittedStamps(rows);
    forall j, k | j in stamps && k in stamps
      ensures TextLess(StampText(stamps[j]), StampText(stamps[k])) <==> stamps[j] < stamps[k]
    {
      StampTextsSortAsInstants(stamps[j], stamps[k]);
    }
    SameList(stamps, StampText, work, limit);
  }

  /** The dispatcher's batch: whole seconds and "Z". */
  lemma DueListIsByText(rows: Outbox.Rows, cutoff: nat, text: Outbox.Format, work: seq<string>, limit: nat)
    requires forall k :: k in rows ==> FourDigitYear(rows[k].createdAt)
    ensures OldestByText(Outbox.DueStamps(rows, cutoff, text), Rfc3339, work, limit)
       <==> Outbox.IsDueList(rows, cutoff, text, work, limit)
  {
    var stamps := Outbox.DueStamps(rows, cutoff, text);
    forall j, k | j in stamps && k in stamps
      ensures TextLess(Rfc3339(stamps[j]), Rfc3339(stamps[k])) <==> stamps[j] < stamps[k]
    {
      TextsSortAsInstants(stamps[j], stamps[k]);
    }
    SameList(stamps, Rfc3339, work, limit);
  }
}
