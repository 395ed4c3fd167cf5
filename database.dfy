/**
 * The database mirror's import: every patient becomes one record tagged
 * with its identifier and one CREATE statement, and all statements are sent
 * as a single transaction.
 *
 * The JSON serialiser and the database's answer to a query are parameters:
 * `dumps` gives the serialised record or None when serialising raises, and
 * `accepts` says whether the database runs a query without raising.
 */
module Database {
  import opened Wrappers

  /** A JSON value as a patient's fields hold them. */
  datatype Json = JNull | JBool(b: bool) | JInt(i: int) | JNum(r: real) | JStr(s: string)

  /** The fields of one patient, by name. */
  type Fields = map<string, Json>

  /** The field that carries the patient's identifier inside the mirrored record. */
  const IdField := "patient_id"

  const TransactionStart := "BEGIN TRANSACTION;\n"
  const TransactionEnd := "\nCOMMIT;"

  /** The indentation the statement template carries before and after the statement. */
  const StatementIndent := "                    "
  const ClosingIndent := "                "

  /** The record mirrored for a patient: its identifier as a field, then its own fields. */
  function Tag(id: string, fields: Fields): (record: Fields)
    ensures record.Keys == fields.Keys + {IdField}
    ensures IdField !in fields ==> record[IdField] == JStr(id)
    ensures forall k | k in fields :: record[k] == fields[k]
  {
    map[IdField := JStr(id)] + fields
  }

  /** The record key a patient is created under. */
  function RecordKey(id: string): (key: string)
    ensures |key| == |"patient:"| + |id|
    ensures key[..|"patient:"|] == "patient:" && key[|"patient:"|..] == id
  {
    "patient:" + id
  }

  /** The statement that creates one patient's record with the given serialised content. */
  function CreateStatement(id: string, content: string): (stmt: string)
    ensures var head := "\n" + StatementIndent + "CREATE ";
            var key := |head| + |RecordKey(id)|;
            var body := key + |" CONTENT "|;
            && |stmt| == body + |content| + |";\n" + ClosingIndent|
            && stmt[..|head|] == head
            && stmt[|head|..key] == RecordKey(id)
            && stmt[key..body] == " CONTENT "
            && stmt[body..body + |content|] == content
            && stmt[body + |content|..] == ";\n" + ClosingIndent
  {
    "\n" + StatementIndent + "CREATE " + RecordKey(id) + " CONTENT " + content + ";\n" + ClosingIndent
  }

  /**
   * The statements for a sequence of patients, in order; None when
   * serialising some patient's record fails.
   */
  function Statements(patients: seq<(string, Fields)>, dumps: Fields -> Option<string>): (r: Option<seq<string>>)
    ensures r.Some? ==> |r.value| == |patients|
  {
    if patients == [] then Some([])
    else
      var last := patients[|patients| - 1];
      match Statements(patients[..|patients| - 1], dumps)
      case None => None
      case Some(earlier) =>
        match dumps(Tag(last.0, last.1))
        case None => None
        case Some(content) => Some(earlier + [CreateStatement(last.0, content)])
  }

  /** One statement per patient, in input order, each for that patient's tagged record. */
  lemma {:induction false} StatementsShape(patients: seq<(string, Fields)>, dumps: Fields -> Option<string>)
    ensures Statements(patients, dumps).Some?
            <==> forall i | 0 <= i < |patients| :: dumps(Tag(patients[i].0, patients[i].1)).Some?
    ensures Statements(patients, dumps).Some? ==>
              var stmts := Statements(patients, dumps).value;
              && |stmts| == |patients|
              && forall i | 0 <= i < |patients| ::
                   stmts[i] == CreateStatement(patients[i].0, dumps(Tag(patients[i].0, patients[i].1)).value)
  {
    if patients != [] {
      var n := |patients| - 1;
      var front := patients[..n];
      StatementsShape(front, dumps);
      assert forall i | 0 <= i < n :: front[i] == patients[i];
    }
  }

  /** The separator-joined concatenation of strings. */
  function Join(sep: string, xs: seq<string>): (r: string)
    ensures |xs| == 0 ==> r == ""
    ensures |xs| > 0 ==> |r| == Offset(sep, xs, |xs| - 1) + |xs[|xs| - 1]|
  {
    if |xs| == 0 then ""
    else if |xs| == 1 then xs[0]
    else xs[0] + sep + Join(sep, xs[1..])
  }

  /** Where the `i`-th string starts inside the joined string. */
  function Offset(sep: string, xs: seq<string>, i: nat): nat
    requires i <= |xs|
  {
    if i == 0 then 0 else |xs[0]| + |sep| + Offset(sep, xs[1..], i - 1)
  }

  /** The next string starts one separator after the end of this one. */
  lemma {:induction false} OffsetStep(sep: string, xs: seq<string>, i: nat)
    requires i < |xs|
    ensures Offset(sep, xs, i + 1) == Offset(sep, xs, i) + |xs[i]| + |sep|
  {
    if i > 0 {
      OffsetStep(sep, xs[1..], i - 1);
      assert xs[1..][i - 1] == xs[i];
    }
  }

  /** A slice of the right operand, read through the concatenation. */
  lemma SliceRight(a: string, b: string, lo: nat, hi: nat)
    requires lo <= hi <= |b|
    ensures (a + b)[|a| + lo..|a| + hi] == b[lo..hi]
  {
    assert forall k | 0 <= k < hi - lo :: (a + b)[|a| + lo..|a| + hi][k] == b[lo..hi][k];
  }

  /** Each string sits at its offset in the join, followed by the separator unless it is last. */
  lemma {:induction false} JoinLayout(sep: string, xs: seq<string>, i: nat)
    requires i < |xs|
    ensures Offset(sep, xs, i) + |xs[i]| <= |Join(sep, xs)|
    ensures Join(sep, xs)[Offset(sep, xs, i)..Offset(sep, xs, i) + |xs[i]|] == xs[i]
    ensures i + 1 < |xs| ==>
              && Offset(sep, xs, i) + |xs[i]| + |sep| <= |Join(sep, xs)|
              && Join(sep, xs)[Offset(sep, xs, i) + |xs[i]|..Offset(sep, xs, i) + |xs[i]| + |sep|] == sep
    ensures i + 1 == |xs| ==> Offset(sep, xs, i) + |xs[i]| == |Join(sep, xs)|
  {
    if |xs| > 1 {
      var rest := Join(sep, xs[1..]);
      var head := xs[0] + sep;
      assert Join(sep, xs) == head + rest;
      assert |Join(sep, xs)| == |head| + |rest|;
      if i == 0 {
        assert (head + rest)[..|xs[0]|] == xs[0];
        assert (head + rest)[|xs[0]|..|head|] == sep;
      } else {
        var o := Offset(sep, xs[1..], i - 1);
        var n := |xs[i]|;
        JoinLayout(sep, xs[1..], i - 1);
        assert xs[1..][i - 1] == xs[i];
        assert Offset(sep, xs, i) == |head| + o;
        SliceRight(head, rest, o, o + n);
        if i + 1 < |xs| {
          SliceRight(head, rest, o + n, o + n + |sep|);
        }
      }
    }
  }

  /** The one query a non-empty import sends. */
  function TransactionQuery(stmts: seq<string>): (q: string)
    ensures |q| == |TransactionStart| + |Join("\n", stmts)| + |TransactionEnd|
    ensures q[..|TransactionStart|] == TransactionStart
    ensures q[|TransactionStart|..|q| - |TransactionEnd|] == Join("\n", stmts)
    ensures q[|q| - |TransactionEnd|..] == TransactionEnd
  {
    TransactionStart + Join("\n", stmts) + TransactionEnd
  }

  /**
   * The transaction opens with BEGIN, closes with COMMIT, and holds every
   * statement in order, newline-separated, at its offset after the opening.
   */
  lemma QueryLayout(stmts: seq<string>, i: nat)
    requires i < |stmts|
    ensures var q := TransactionQuery(stmts);
            var at := |TransactionStart| + Offset("\n", stmts, i);
            && q[..|TransactionStart|] == TransactionStart
            && q[|q| - |TransactionEnd|..] == TransactionEnd
            && at + |stmts[i]| <= |q| - |TransactionEnd|
            && q[at..at + |stmts[i]|] == stmts[i]
            && (i + 1 < |stmts| ==> q[at + |stmts[i]|] == '\n'
                                    && |TransactionStart| + Offset("\n", stmts, i + 1) == at + |stmts[i]| + 1)
  {
    var q := TransactionQuery(stmts);
    var body := Join("\n", stmts);
    var o := Offset("\n", stmts, i);
    var n := |stmts[i]|;
    var start := |TransactionStart|;
    JoinLayout("\n", stmts, i);
    assert q == TransactionStart + body + TransactionEnd;
    assert q[start + o..start + o + n] == body[o..o + n];
    if i + 1 < |stmts| {
      OffsetStep("\n", stmts, i);
      assert body[o + n..o + n + 1] == "\n";
      assert q[start + o + n] == body[o + n];
    }
  }

  /** Builds the CREATE statement of every patient, in order. */
  method BuildStatements(patients: seq<(string, Fields)>, dumps: Fields -> Option<string>)
    returns (r: Option<seq<string>>)
    ensures r == Statements(patients, dumps)
  {
    var queries: seq<string> := [];
    var i := 0;
    while i < |patients|
      invariant 0 <= i <= |patients|
      invariant Statements(patients[..i], dumps) == Some(queries)
    {
      var (id, data) := patients[i];
      var record := Tag(id, data);
      var content := dumps(record);
      if content.None? {
        StatementsShape(patients, dumps);
        return None;
      }
      queries := queries + [CreateStatement(id, content.value)];
      assert patients[..i + 1][..i] == patients[..i];
      i := i + 1;
    }
    assert patients[..i] == patients;
    return Some(queries);
  }

  /** Why an import failed; the failure reaches the caller. */
  datatype ImportError = SerialiseFailed | QueryFailed(query: string)

  class SurrealDataBase {
    /** The queries handed to the database, in order. */
    ghost var sent: seq<string>

    constructor ()
      ensures sent == []
    {
      sent := [];
    }

    /**
     * Sends all patients as one transaction; sends nothing for no patients
     * and nothing when a record cannot be serialised.
     */
    method ImportPatients(patients: seq<(string, Fields)>, dumps: Fields -> Option<string>,
                          accepts: string -> bool)
      returns (r: Outcome<ImportError>)
      modifies this
      ensures Statements(patients, dumps).None? ==> r == Fail(SerialiseFailed) && sent == old(sent)
      ensures Statements(patients, dumps).Some? && patients == [] ==> r == Pass && sent == old(sent)
      ensures Statements(patients, dumps).Some? && patients != [] ==>
                var q := TransactionQuery(Statements(patients, dumps).value);
                && sent == old(sent) + [q]
                && r == (if accepts(q) then Pass else Fail(QueryFailed(q)))
    {
      var stmts := BuildStatements(patients, dumps);
      if stmts.None? {
        return Fail(SerialiseFailed);
      }
      StatementsShape(patients, dumps);
      if stmts.value != [] {
        var query := TransactionQuery(stmts.value);
        sent := sent + [query];
        if !accepts(query) {
          return Fail(QueryFailed(query));
        }
      }
      return Pass;
    }
  }
}
