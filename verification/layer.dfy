/**
 * The query entry point of the Postgres layer: convert the parameters, hand
 * statement and values to the driver (the pool, or the connection of a
 * transaction), and shape the driver's reply; and the identifier quoting.
 */
module Layer {
  import opened Wrappers
  import opened JsValues
  import opened ParamConversion

  /** The quoting pair of the Postgres dialect. */
  const Delimiters: string := "\"\""

  /** `wrap(identifier)`: the identifier between the opening and the closing delimiter. */
  function Wrap(identifier: string): (r: string)
    ensures |r| == |identifier| + 2
    ensures r[0] == '"' && r[|r| - 1] == '"'
    ensures r[1..|r| - 1] == identifier
  {
    [Delimiters[0]] + identifier + [Delimiters[1]]
  }

  // ---------------------------------------------------------------------------
  // Driver replies and their shaping
  // ---------------------------------------------------------------------------

  type Row = map<string, JsValue>

  /** One statement's result from the driver; only its rows are used here. */
  datatype PgResult = PgResult(rows: seq<Row>)

  /** The driver's reply: one result, or an array of results for a multi-statement script. */
  datatype Response = Single(result: PgResult) | Multiple(results: seq<PgResult>)

  /** What a query resolves with: the rows, or one row list per statement of a script. */
  datatype Rows = RowSet(rows: seq<Row>) | RowSets(sets: seq<seq<Row>>)

  /** `Array.isArray(result) ? result.map(({rows}) => rows) : result.rows`. */
  function Shape(response: Response): (r: Rows)
    ensures r.RowSets? <==> response.Multiple?
    ensures response.Single? ==> r == RowSet(response.result.rows)
    ensures response.Multiple? ==>
      && |r.sets| == |response.results|
      && forall i :: 0 <= i < |r.sets| ==> r.sets[i] == response.results[i].rows
  {
    match response
    case Single(result) => RowSet(result.rows)
    case Multiple(results) => RowSets(seq(|results|, i requires 0 <= i < |results| => results[i].rows))
  }

  /** The driver's callback: an error, or a reply. */
  datatype Reply = Failed(err: JsValue) | Succeeded(response: Response)

  /** A driver connection (the pool or a transaction's client), seen only through what `query` sends it. */
  type Connection = (string, Sent) -> Reply

  /** Why a query promise rejects: the failed parameter assertion, or the driver's own error. */
  datatype Failure = AssertionError(message: string) | DriverError(err: JsValue)

  /** How the query promise settles. */
  datatype Outcome = Resolved(rows: Rows) | Rejected(failure: Failure)

  /**
   * `query(statement, params, options)`: the transaction's connection when
   * `options.transaction` is set, the pool otherwise; the parameters are
   * converted first and a binding error rejects before the driver is asked.
   */
  function Query(statement: string, params: Params, transaction: Option<Connection>, pool: Connection): Outcome {
    match Prepare(statement, params)
    case Err(e) => Rejected(AssertionError(NotFoundMessage(e)))
    case Ok(call) =>
      match Target(transaction, pool)(call.statement, call.params)
      case Failed(err) => Rejected(DriverError(err))
      case Succeeded(response) => Resolved(Shape(response))
  }

  /** The connection a query runs on: `options.transaction` when set, else the pool. */
  function Target(transaction: Option<Connection>, pool: Connection): Connection {
    if transaction.Some? then transaction.value else pool
  }

  /** `batch(script, options)`: a query with `null` params. */
  function Batch(script: string, transaction: Option<Connection>, pool: Connection): Outcome {
    Query(script, NoParams(Null), transaction, pool)
  }

  /** `execute(statement, params, options)`: the same as `query`. */
  function Execute(statement: string, params: Params, transaction: Option<Connection>, pool: Connection): (r: Outcome)
    ensures r == Query(statement, params, transaction, pool)
  {
    Query(statement, params, transaction, pool)
  }

  // ---------------------------------------------------------------------------
  // Properties of a query
  // ---------------------------------------------------------------------------

  /**
   * A binding error rejects with the "not found" message of the first falsy
   * placeholder, whatever the pool or the transaction would have answered:
   * no statement reaches the driver.
   */
  lemma QueryRejectsBeforeDriver(statement: string, props: map<string, JsValue>,
                                 t1: Option<Connection>, p1: Connection,
                                 t2: Option<Connection>, p2: Connection)
    requires BindNamed(statement, props).Err?
    ensures Query(statement, Named(props), t1, p1) == Query(statement, Named(props), t2, p2)
    ensures Query(statement, Named(props), t1, p1)
         == Rejected(AssertionError("Parameter " + BindNamed(statement, props).error.placeholder + " not found in object params"))
  {
  }

  /** With a transaction the pool is never used. */
  lemma QueryInTransaction(statement: string, params: Params, t: Connection, p1: Connection, p2: Connection)
    ensures Query(statement, params, Some(t), p1) == Query(statement, params, Some(t), p2)
  {
  }

  /**
   * What the driver is asked and what comes back: the converted statement and
   * values go to the chosen connection; its error is passed on as it is, and
   * its reply is shaped into rows.
   */
  lemma QueryForwards(statement: string, params: Params, transaction: Option<Connection>, pool: Connection)
    requires Prepare(statement, params).Ok?
    ensures var call := Prepare(statement, params).value;
      var connection := Target(transaction, pool);
      && (connection(call.statement, call.params).Failed? ==>
            Query(statement, params, transaction, pool) == Rejected(DriverError(connection(call.statement, call.params).err)))
      && (connection(call.statement, call.params).Succeeded? ==>
            Query(statement, params, transaction, pool) == Resolved(Shape(connection(call.statement, call.params).response)))
  {
  }

  /** A script goes to the driver as written, with `null` params, and a multi-statement reply resolves to one row list per statement. */
  lemma BatchSendsScript(script: string, transaction: Option<Connection>, pool: Connection, results: seq<PgResult>)
    requires Target(transaction, pool)(script, AsGiven(Null)) == Succeeded(Multiple(results))
    ensures Batch(script, transaction, pool).Resolved?
    ensures var rows := Batch(script, transaction, pool).rows;
      rows.RowSets? && |rows.sets| == |results| &&
      forall i :: 0 <= i < |results| ==> rows.sets[i] == results[i].rows
  {
  }
}
