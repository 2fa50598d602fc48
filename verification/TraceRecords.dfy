/** One request of the anonymised trace, as qwen_bailian_trace.py reads it. */
module TraceRecords {

  const BLOCK_SIZE := 16

  /** The input length is a nat because validation refuses a negative one. */
  datatype Record = Record(
    chatId: int,
    parentId: int,
    timestamp: real,
    inputLength: nat,
    outputLength: int,
    requestType: string,
    turn: int,
    hashIds: seq<int>)

  type Session = seq<Record>

  /** The parent id of a record that starts a session. */
  const NO_PARENT := -1

  function BlocksFor(tokens: nat): (blocks: nat)
    ensures blocks * BLOCK_SIZE - BLOCK_SIZE < tokens <= blocks * BLOCK_SIZE
  {
    tokens / BLOCK_SIZE + if tokens % BLOCK_SIZE != 0 then 1 else 0
  }

  /** The conditions that BailianRecord.validate enforces on every record read. */
  predicate Validated(r: Record) {
    && 0 <= r.chatId
    && -1 <= r.parentId
    && 0.0 <= r.timestamp
    && 0 < r.inputLength
    && 0 <= r.outputLength
    && 0 < r.turn
    && |r.hashIds| == BlocksFor(r.inputLength)
  }

  predicate AllValidated(records: seq<Record>) {
    forall r | r in records :: Validated(r)
  }

  /** No record of the session is earlier than the one before it. */
  predicate Chronological(s: Session) {
    forall i | 0 <= i < |s| - 1 :: s[i].timestamp <= s[i + 1].timestamp
  }

  lemma {:induction false} ChronologicalOrders(s: Session, i: nat, j: nat)
    requires Chronological(s) && i <= j < |s|
    ensures s[i].timestamp <= s[j].timestamp
    decreases j
  {
    if i < j {
      ChronologicalOrders(s, i, j - 1);
    }
  }
}
