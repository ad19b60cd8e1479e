/**
 * The price oracle that pushes recorded coffee prices to the Westend chain:
 * its connection state, the guard in front of every submission, and the
 * batch loop that validates rows and collects a success flag per id.
 */
module Oracle {

  /**
   * What the outside world does while `connect` runs: whether the node
   * answers, the configured signer seed ("" when unset), whether the seed is
   * a valid mnemonic, and whether the balance query succeeds.
   */
  datatype Network = Network(endpointUp: bool, seed: string, mnemonicValid: bool, accountQueryOk: bool)

  /** Which of the oracle's fields are set. */
  datatype Link = Link(hasSubstrate: bool, hasSigner: bool, isConnected: bool)

  /**
   * One row of the price table after the conversions `str(row.get('id', ''))`,
   * `row.get('timestamp')` and `float(row.get('price', 0))`, for a row whose
   * cells hold values: a column absent from the table gives the id "", a
   * missing timestamp "" and the price 0. Empty cells that pandas reads as
   * NaN or NaT are not represented.
   */
  datatype Row = Row(id: string, timestamp: string, price: real)

  /** The connection is only reported when there is a node and a signer to use it. */
  predicate Coherent(s: Link) {
    s.isConnected ==> s.hasSubstrate && s.hasSigner
  }

  /** `connect` returns True exactly when every step succeeds. */
  function ConnectSucceeds(net: Network): bool {
    net.endpointUp && net.seed != "" && net.mnemonicValid && net.accountQueryOk
  }

  /**
   * The fields after `connect`: each handle is set once its step succeeds;
   * a failure inside the `try` clears `is_connected`, while a missing seed
   * returns before touching it.
   */
  function ConnectState(s: Link, net: Network): (t: Link)
    ensures t.isConnected <==> ConnectSucceeds(net) || (s.isConnected && net.endpointUp && net.seed == "")
    ensures Coherent(s) ==> Coherent(t)
    ensures t.hasSigner ==> s.hasSigner || (net.endpointUp && net.seed != "" && net.mnemonicValid)
  {
    if !net.endpointUp then s.(isConnected := false)
    else if net.seed == "" then s.(hasSubstrate := true)
    else if !net.mnemonicValid then s.(hasSubstrate := true, isConnected := false)
    else if !net.accountQueryOk then Link(true, true, false)
    else Link(true, true, true)
  }

  /** A row that passes the checks of `submit_prices_batch`. */
  predicate ValidRow(row: Row) {
    row.id != "" && row.timestamp != "" && row.price > 0.0
  }

  /**
   * The result map of a connected batch: rows in order, each writing its id
   * (a later row overwrites an earlier one with the same id); an invalid row
   * writes False, a valid one the chain's answer `accepted[i]`.
   */
  function BatchResults(rows: seq<Row>, accepted: seq<bool>): map<string, bool>
    requires |accepted| == |rows|
  {
    if |rows| == 0 then map[]
    else
      var n := |rows| - 1;
      BatchResults(rows[..n], accepted[..n])[rows[n].id := ValidRow(rows[n]) && accepted[n]]
  }

  /** The rows a connected batch hands to `submit_price`, in order. */
  function Submitted(rows: seq<Row>): seq<Row> {
    if |rows| == 0 then []
    else
      var n := |rows| - 1;
      if ValidRow(rows[n]) then Submitted(rows[..n]) + [rows[n]] else Submitted(rows[..n])
  }

  class PriceOracle {
    var hasSubstrate: bool
    var hasSigner: bool
    var isConnected: bool

    function State(): Link
      reads this
    {
      Link(hasSubstrate, hasSigner, isConnected)
    }

    /** `__init__`: no handles, not connected, then one `connect` attempt. */
    constructor (net: Network)
      ensures State() == ConnectState(Link(false, false, false), net)
      ensures Coherent(State())
    {
      hasSubstrate := false;
      hasSigner := false;
      isConnected := false;
      new;
      var _ := Connect(net);
    }

    /** `connect`: sets up the node handle and the signer, then checks the account. */
    method Connect(net: Network) returns (ok: bool)
      modifies this
      ensures ok == ConnectSucceeds(net)
      ensures State() == ConnectState(old(State()), net)
    {
      if !net.endpointUp {
        isConnected := false;
        return false;
      }
      hasSubstrate := true;
      if net.seed == "" {
        return false;
      }
      if !net.mnemonicValid {
        isConnected := false;
        return false;
      }
      hasSigner := true;
      if !net.accountQueryOk {
        isConnected := false;
        return false;
      }
      isConnected := true;
      return true;
    }

    /**
     * `submit_price`: refuses without a connection, a node handle or a
     * signer; otherwise the outcome is the chain's answer `accepted`.
     */
    method SubmitPrice(id: string, timestamp: string, price: real, accepted: bool) returns (ok: bool)
      ensures ok <==> isConnected && hasSubstrate && hasSigner && accepted
      ensures !isConnected ==> !ok
    {
      if !isConnected || !hasSubstrate || !hasSigner {
        return false;
      }
      ok := accepted;
    }

    /**
     * `submit_prices_batch`: an empty map when disconnected; otherwise every
     * row is checked, invalid rows are recorded as False without being sent,
     * and valid rows are sent and recorded with the chain's answer.
     * `accepted[i]` is the chain's answer should row i be sent; `submitted`
     * lists the rows sent, in order.
     */
    method SubmitPricesBatch(rows: seq<Row>, accepted: seq<bool>) returns (results: map<string, bool>, submitted: seq<Row>)
      requires Coherent(State())
      requires |accepted| == |rows|
      ensures !isConnected ==> results == map[] && submitted == []
      ensures isConnected ==> results == BatchResults(rows, accepted) && submitted == Submitted(rows)
    {
      results := map[];
      submitted := [];
      if !isConnected {
        return;
      }
      var i := 0;
      while i < |rows|
        invariant 0 <= i <= |rows|
        invariant results == BatchResults(rows[..i], accepted[..i])
        invariant submitted == Submitted(rows[..i])
      {
        var row := rows[i];
        assert rows[..i + 1][..i] == rows[..i];
        assert accepted[..i + 1][..i] == accepted[..i];
        if row.id == "" || row.timestamp == "" || row.price <= 0.0 {
          results := results[row.id := false];
        } else {
          var success := SubmitPrice(row.id, row.timestamp, row.price, accepted[i]);
          results := results[row.id := success];
          submitted := submitted + [row];
        }
        i := i + 1;
      }
      assert rows[..i] == rows;
      assert accepted[..i] == accepted;
    }
  }

  // ---------------------------------------------------------------------
  // Properties of the batch
  // ---------------------------------------------------------------------

  /** The result keys are exactly the ids of the rows. */
  lemma {:induction false} BatchKeys(rows: seq<Row>, accepted: seq<bool>)
    requires |accepted| == |rows|
    ensures BatchResults(rows, accepted).Keys == set i | 0 <= i < |rows| :: rows[i].id
  {
    if |rows| > 0 {
      var n := |rows| - 1;
      BatchKeys(rows[..n], accepted[..n]);
      var front := set i | 0 <= i < n :: rows[..n][i].id;
      assert front == set i | 0 <= i < n :: rows[i].id by {
        forall i | 0 <= i < n ensures rows[..n][i].id == rows[i].id {}
      }
      assert (set i | 0 <= i < |rows| :: rows[i].id) == front + {rows[n].id};
    }
  }

  /**
   * The entry of an id is decided by the last row carrying it: False when
   * that row is invalid, the chain's answer for it otherwise.
   */
  lemma {:induction false} BatchLastRowWins(rows: seq<Row>, accepted: seq<bool>, i: nat)
    requires |accepted| == |rows| && i < |rows|
    requires forall j :: i < j < |rows| ==> rows[j].id != rows[i].id
    ensures rows[i].id in BatchResults(rows, accepted)
    ensures BatchResults(rows, accepted)[rows[i].id] == (ValidRow(rows[i]) && accepted[i])
  {
    var n := |rows| - 1;
    if i < n {
      BatchLastRowWins(rows[..n], accepted[..n], i);
    }
  }

  /** Only valid rows are sent to the chain. */
  lemma {:induction false} SubmittedAreValid(rows: seq<Row>)
    ensures forall k :: 0 <= k < |Submitted(rows)| ==> ValidRow(Submitted(rows)[k])
  {
    if |rows| > 0 {
      SubmittedAreValid(rows[..|rows| - 1]);
    }
  }

  /** The positions of the valid rows. */
  function ValidIndices(rows: seq<Row>): set<int> {
    set i | 0 <= i < |rows| && ValidRow(rows[i])
  }

  /** Adding a row adds its position when the row is valid. */
  lemma {:induction false} ValidIndicesSnoc(rows: seq<Row>)
    requires |rows| > 0
    ensures var n := |rows| - 1;
      ValidIndices(rows) == ValidIndices(rows[..n]) + (if ValidRow(rows[n]) then {n} else {})
      && n !in ValidIndices(rows[..n])
  {
    var n := |rows| - 1;
    var last := if ValidRow(rows[n]) then {n} else {};
    forall i ensures i in ValidIndices(rows) <==> i in ValidIndices(rows[..n]) + last {
      if 0 <= i < n {
        assert rows[..n][i] == rows[i];
      }
    }
  }

  /** Every valid row is sent to the chain: as many rows are sent as there are valid rows. */
  lemma {:induction false} SubmittedCount(rows: seq<Row>)
    ensures |Submitted(rows)| == |set i | 0 <= i < |rows| && ValidRow(rows[i])|
  {
    assert ValidIndices(rows) == set i | 0 <= i < |rows| && ValidRow(rows[i]);
    if |rows| > 0 {
      var n := |rows| - 1;
      SubmittedCount(rows[..n]);
      assert |Submitted(rows[..n])| == |ValidIndices(rows[..n])|;
      ValidIndicesSnoc(rows);
    }
  }

  /** What is sent for a prefix of the rows is a prefix of what is sent for all of them. */
  lemma {:induction false} SubmittedPrefix(rows: seq<Row>, j: nat)
    requires j <= |rows|
    ensures Submitted(rows[..j]) <= Submitted(rows)
    decreases |rows|
  {
    if j < |rows| {
      var n := |rows| - 1;
      assert rows[..n][..j] == rows[..j];
      SubmittedPrefix(rows[..n], j);
    } else {
      assert rows[..j] == rows;
    }
  }

  /** A valid row is sent right after the rows sent before it. */
  lemma {:induction false} SubmittedValidStep(rows: seq<Row>, i: nat)
    requires i < |rows| && ValidRow(rows[i])
    ensures Submitted(rows[..i + 1]) == Submitted(rows[..i]) + [rows[i]]
  {
    assert rows[..i + 1][..i] == rows[..i];
  }

  /**
   * Every valid row is sent, at the position given by the number of rows
   * sent before it, so the valid rows are sent in their original order.
   */
  lemma {:induction false} SubmittedInOrder(rows: seq<Row>)
    ensures forall i :: 0 <= i < |rows| && ValidRow(rows[i]) ==>
      |Submitted(rows[..i])| < |Submitted(rows)| && Submitted(rows)[|Submitted(rows[..i])|] == rows[i]
    ensures forall i, j :: 0 <= i < j <= |rows| && ValidRow(rows[i]) ==>
      |Submitted(rows[..i])| < |Submitted(rows[..j])|
    ensures forall i :: 0 <= i < |rows| && ValidRow(rows[i]) ==> rows[i] in Submitted(rows)
  {
    forall i | 0 <= i < |rows| && ValidRow(rows[i])
      ensures |Submitted(rows[..i])| < |Submitted(rows)| && Submitted(rows)[|Submitted(rows[..i])|] == rows[i]
    {
      SubmittedValidStep(rows, i);
      SubmittedPrefix(rows, i + 1);
    }
    forall i, j | 0 <= i < j <= |rows| && ValidRow(rows[i])
      ensures |Submitted(rows[..i])| < |Submitted(rows[..j])|
    {
      SubmittedValidStep(rows, i);
      assert rows[..j][..i + 1] == rows[..i + 1];
      SubmittedPrefix(rows[..j], i + 1);
    }
  }
}
