/**
 * Transaction tracking layered over a Presto DB-API driver (presto/nzpresto.py).
 *
 * One CurrentTransaction cell per Connection, shared by reference with every
 * Cursor the connection creates. A cursor sends the cell's display id with
 * every statement and updates the cell from the two transaction headers of
 * the response and of every result page fetched after it. The HTTP round trip
 * is not modelled: the response headers are parameters of Execute and FetchAll.
 */
module NzPresto {

  import opened Wrappers
  import SessionHeader

  type Headers = map<string, string>

  const CATALOG_HEADER := "X-Presto-Catalog"
  const SCHEMA_HEADER := "X-Presto-Schema"
  const SOURCE_HEADER := "X-Presto-Source"
  const USER_HEADER := "X-Presto-User"
  const TRANSACTION_HEADER := "X-Presto-Transaction-Id"
  const SESSION_HEADER := "X-Presto-Session"
  const STARTED_HEADER := "X-Presto-Started-Transaction-Id"
  const CLEAR_HEADER := "X-Presto-Clear-Transaction-Id"

  /** The transaction id sent while no transaction is active. */
  const NO_TRANSACTION := "none"

  const START_STATEMENT := "start transaction"
  const COMMIT_STATEMENT := "commit"
  const ROLLBACK_STATEMENT := "rollback"

  /** What a cursor sends: the statement text and the request headers. */
  datatype Request = Request(statement: string, headers: Headers)

  // ---------------------------------------------------------------------------
  // The transaction cell

  class CurrentTransaction {
    var transactionId: Option<string>

    constructor ()
      ensures transactionId == None
      ensures !IsActive() && GetId() == NO_TRANSACTION
    {
      transactionId := None;
    }

    predicate IsActive()
      reads this
      ensures IsActive() <==> transactionId.Some?
    {
      transactionId != None
    }

    method SetTransactionId(t: string)
      modifies this
      ensures transactionId == Some(t)
      ensures IsActive() && GetId() == t
    {
      transactionId := Some(t);
    }

    method ResetTransactionId()
      modifies this
      ensures transactionId == None
      ensures !IsActive() && GetId() == NO_TRANSACTION
    {
      transactionId := None;
    }

    /** The id put in the outbound header: the stored id, or "none". */
    function GetId(): (id: string)
      reads this
      ensures IsActive() ==> id == transactionId.value
      ensures !IsActive() ==> id == NO_TRANSACTION
    {
      match transactionId
      case None => NO_TRANSACTION
      case Some(t) => t
    }
  }

  // ---------------------------------------------------------------------------
  // The response-driven transition of the cell

  predicate CarriesSignal(response: Headers)
  {
    STARTED_HEADER in response || CLEAR_HEADER in response
  }

  /**
   * The cell after one response: the started header sets it, then the clear
   * header empties it, so a clear wins over a started header in the same response.
   */
  function ApplyResponse(t: Option<string>, response: Headers): (r: Option<string>)
    ensures CLEAR_HEADER in response ==> r == None
    ensures CLEAR_HEADER !in response && STARTED_HEADER in response ==> r == Some(response[STARTED_HEADER])
    ensures !CarriesSignal(response) ==> r == t
    ensures r.Some? <==> CLEAR_HEADER !in response && (STARTED_HEADER in response || t.Some?)
  {
    var afterStarted := if STARTED_HEADER in response then Some(response[STARTED_HEADER]) else t;
    if CLEAR_HEADER in response then None else afterStarted
  }

  /** The cell after a series of responses, received in order. */
  function ApplyResponses(t: Option<string>, responses: seq<Headers>): (r: Option<string>)
    ensures responses == [] ==> r == t
    ensures responses != [] ==>
      r == ApplyResponse(ApplyResponses(t, responses[..|responses| - 1]), responses[|responses| - 1])
    decreases |responses|
  {
    if responses == [] then t
    else
      var rest := responses[1..];
      assert rest != [] ==> responses[..|responses| - 1][1..] == rest[..|rest| - 1];
      ApplyResponses(ApplyResponse(t, responses[0]), rest)
  }

  lemma {:induction false} ApplyResponsesAppend(t: Option<string>, a: seq<Headers>, b: seq<Headers>)
    ensures ApplyResponses(t, a + b) == ApplyResponses(ApplyResponses(t, a), b)
    decreases |a|
  {
    if a == [] {
      assert a + b == b;
    } else {
      assert (a + b)[0] == a[0];
      assert (a + b)[1..] == a[1..] + b;
      ApplyResponsesAppend(ApplyResponse(t, a[0]), a[1..], b);
    }
  }

  /** Responses without transaction headers leave the cell as it was. */
  lemma {:induction false} QuietResponses(t: Option<string>, responses: seq<Headers>)
    requires forall i :: 0 <= i < |responses| ==> !CarriesSignal(responses[i])
    ensures ApplyResponses(t, responses) == t
    decreases |responses|
  {
    if responses != [] {
      var rest := responses[1..];
      assert forall i :: 0 <= i < |rest| ==> rest[i] == responses[i + 1];
      QuietResponses(ApplyResponse(t, responses[0]), rest);
    }
  }

  /**
   * Whatever the cell held before, after a series of responses it is decided by
   * the last response that carries a transaction header.
   */
  lemma LastSignalDecides(t: Option<string>, responses: seq<Headers>, k: nat)
    requires k < |responses| && CarriesSignal(responses[k])
    requires forall j :: k < j < |responses| ==> !CarriesSignal(responses[j])
    ensures CLEAR_HEADER in responses[k] ==> ApplyResponses(t, responses) == None
    ensures CLEAR_HEADER !in responses[k] ==>
      ApplyResponses(t, responses) == Some(responses[k][STARTED_HEADER])
  {
    var before, last, after := responses[..k], responses[k], responses[k + 1..];
    assert responses == (before + [last]) + after;
    ApplyResponsesAppend(t, before + [last], after);
    ApplyResponsesAppend(t, before, [last]);
    var atLast := ApplyResponses(ApplyResponses(t, before), [last]);
    assert atLast == ApplyResponse(ApplyResponses(t, before), last);
    assert forall i :: 0 <= i < |after| ==> after[i] == responses[k + 1 + i];
    QuietResponses(atLast, after);
  }

  // ---------------------------------------------------------------------------
  // The outbound headers

  /** The headers `execute` sends, given the cursor's settings and the cell's display id. */
  function RequestHeaderMap(catalog: string, schema: string, source: string, user: string,
                            transactionId: string, props: SessionHeader.SessionProperties): (h: Headers)
    ensures h.Keys == {CATALOG_HEADER, SCHEMA_HEADER, SOURCE_HEADER, USER_HEADER, TRANSACTION_HEADER}
                      + (if props == [] then {} else {SESSION_HEADER})
    ensures h[CATALOG_HEADER] == catalog && h[SCHEMA_HEADER] == schema
    ensures h[SOURCE_HEADER] == source && h[USER_HEADER] == user
    ensures h[TRANSACTION_HEADER] == transactionId
    ensures SESSION_HEADER in h <==> props != []
    ensures SESSION_HEADER in h ==> h[SESSION_HEADER] == SessionHeader.Value(props)
  {
    var base := map[CATALOG_HEADER := catalog, SCHEMA_HEADER := schema, SOURCE_HEADER := source,
                    USER_HEADER := user, TRANSACTION_HEADER := transactionId];
    if props == [] then base else base[SESSION_HEADER := SessionHeader.Value(props)]
  }

  /**
   * The session properties a reader recovers from the request headers: none
   * when the session header is absent, else the decoding of its value.
   */
  function DecodeSession(h: Headers): (r: Option<SessionHeader.SessionProperties>)
  {
    if SESSION_HEADER !in h then Some([]) else SessionHeader.Decode(h[SESSION_HEADER])
  }

  /** The session properties survive the trip through the request headers. */
  lemma SessionRoundTrip(catalog: string, schema: string, source: string, user: string,
                         transactionId: string, props: SessionHeader.SessionProperties)
    requires forall i :: 0 <= i < |props| ==> SessionHeader.Encodable(props[i])
    ensures DecodeSession(RequestHeaderMap(catalog, schema, source, user, transactionId, props)) == Some(props)
  {
    if props != [] {
      SessionHeader.RoundTrip(props);
    }
  }

  // ---------------------------------------------------------------------------
  // Cursors

  class Cursor {
    const catalog: string
    const schema: string
    const source: string
    const username: string
    const sessionProps: SessionHeader.SessionProperties
    /** The connection's cell, not a copy of it. */
    const currentTransaction: CurrentTransaction

    constructor (catalog: string, schema: string, source: string, username: string,
                 sessionProps: SessionHeader.SessionProperties, currentTransaction: CurrentTransaction)
      ensures this.catalog == catalog && this.schema == schema && this.source == source
      ensures this.username == username && this.sessionProps == sessionProps
      ensures this.currentTransaction == currentTransaction
    {
      this.catalog := catalog;
      this.schema := schema;
      this.source := source;
      this.username := username;
      this.sessionProps := sessionProps;
      this.currentTransaction := currentTransaction;
    }

    /** Builds the header dictionary, adding the session header only when there are properties. */
    method RequestHeaders() returns (headers: Headers)
      ensures headers == RequestHeaderMap(catalog, schema, source, username,
                                          currentTransaction.GetId(), sessionProps)
    {
      headers := map[CATALOG_HEADER := catalog, SCHEMA_HEADER := schema, SOURCE_HEADER := source,
                     USER_HEADER := username, TRANSACTION_HEADER := currentTransaction.GetId()];
      if sessionProps != [] {
        headers := headers[SESSION_HEADER := SessionHeader.Value(sessionProps)];
      }
    }

    /** Applies the two transaction headers of a response to the shared cell, in order. */
    method ProcessResponse(response: Headers)
      modifies currentTransaction
      ensures currentTransaction.transactionId
              == ApplyResponse(old(currentTransaction.transactionId), response)
    {
      if STARTED_HEADER in response {
        currentTransaction.SetTransactionId(response[STARTED_HEADER]);
      }
      if CLEAR_HEADER in response {
        currentTransaction.ResetTransactionId();
      }
    }

    /**
     * Sends `operation` with the headers built from the cell as it was before
     * the call, then applies the server's `response` headers to the cell.
     */
    method Execute(operation: string, response: Headers) returns (sent: Request)
      modifies currentTransaction
      ensures sent == Request(operation, RequestHeaderMap(catalog, schema, source, username,
                                                          old(currentTransaction.GetId()), sessionProps))
      ensures currentTransaction.transactionId
              == ApplyResponse(old(currentTransaction.transactionId), response)
    {
      var headers := RequestHeaders();
      sent := Request(operation, headers);
      ProcessResponse(response);
    }

    /**
     * Fetches the remaining pages of the result. Each page's response goes
     * through ProcessResponse, so its transaction headers update the shared cell
     * in the order the pages arrive. Rows are not modelled.
     */
    method FetchAll(pages: seq<Headers>)
      modifies currentTransaction
      ensures currentTransaction.transactionId
              == ApplyResponses(old(currentTransaction.transactionId), pages)
    {
      var i := 0;
      while i < |pages|
        invariant 0 <= i <= |pages|
        invariant currentTransaction.transactionId
                  == ApplyResponses(old(currentTransaction.transactionId), pages[..i])
      {
        ProcessResponse(pages[i]);
        assert pages[..i + 1][..i] == pages[..i];
        i := i + 1;
      }
      assert pages[..|pages|] == pages;
    }
  }

  // ---------------------------------------------------------------------------
  // Connections

  class Connection {
    const catalog: string
    const schema: string
    const source: string
    const username: string
    const sessionProps: SessionHeader.SessionProperties
    /** Owned by the connection and shared with each of its cursors. */
    const currentTransaction: CurrentTransaction
    /** The requests the connection itself has issued, oldest first. */
    ghost var issued: seq<Request>

    constructor (catalog: string, schema: string, source: string, username: string,
                 sessionProps: SessionHeader.SessionProperties)
      ensures this.catalog == catalog && this.schema == schema && this.source == source
      ensures this.username == username && this.sessionProps == sessionProps
      ensures fresh(currentTransaction) && !currentTransaction.IsActive()
      ensures issued == []
    {
      this.catalog := catalog;
      this.schema := schema;
      this.source := source;
      this.username := username;
      this.sessionProps := sessionProps;
      currentTransaction := new CurrentTransaction();
      issued := [];
    }

    /** The request a fresh cursor of this connection would send for `statement` now. */
    ghost function RequestFor(statement: string): Request
      reads currentTransaction
    {
      Request(statement, RequestHeaderMap(catalog, schema, source, username,
                                          currentTransaction.GetId(), sessionProps))
    }

    /** A new cursor with the connection's settings and its very cell. */
    method NewCursor() returns (c: Cursor)
      ensures fresh(c)
      ensures c.catalog == catalog && c.schema == schema && c.source == source
      ensures c.username == username && c.sessionProps == sessionProps
      ensures c.currentTransaction == currentTransaction
    {
      c := new Cursor(catalog, schema, source, username, sessionProps, currentTransaction);
    }

    /**
     * Issues `start transaction` whatever the cell holds. `response` is the
     * reply to the statement and `laterPages` the pages fetched after it.
     */
    method Begin(response: Headers, laterPages: seq<Headers>)
      modifies this`issued, currentTransaction
      ensures issued == old(issued) + [old(RequestFor(START_STATEMENT))]
      ensures currentTransaction.transactionId
              == ApplyResponses(old(currentTransaction.transactionId), [response] + laterPages)
    {
      var c := NewCursor();
      var sent := c.Execute(START_STATEMENT, response);
      c.FetchAll(laterPages);
      issued := issued + [sent];
      ApplyResponsesAppend(old(currentTransaction.transactionId), [response], laterPages);
    }

    /** Issues `commit` only while a transaction is active. */
    method Commit(response: Headers, laterPages: seq<Headers>)
      modifies this`issued, currentTransaction
      ensures old(currentTransaction.IsActive()) ==>
        && issued == old(issued) + [old(RequestFor(COMMIT_STATEMENT))]
        && currentTransaction.transactionId
           == ApplyResponses(old(currentTransaction.transactionId), [response] + laterPages)
      ensures !old(currentTransaction.IsActive()) ==>
        issued == old(issued) && unchanged(currentTransaction)
    {
      if currentTransaction.IsActive() {
        var c := NewCursor();
        var sent := c.Execute(COMMIT_STATEMENT, response);
        c.FetchAll(laterPages);
        issued := issued + [sent];
        ApplyResponsesAppend(old(currentTransaction.transactionId), [response], laterPages);
      }
    }

    /** Issues `rollback` only while a transaction is active. */
    method Rollback(response: Headers, laterPages: seq<Headers>)
      modifies this`issued, currentTransaction
      ensures old(currentTransaction.IsActive()) ==>
        && issued == old(issued) + [old(RequestFor(ROLLBACK_STATEMENT))]
        && currentTransaction.transactionId
           == ApplyResponses(old(currentTransaction.transactionId), [response] + laterPages)
      ensures !old(currentTransaction.IsActive()) ==>
        issued == old(issued) && unchanged(currentTransaction)
    {
      if currentTransaction.IsActive() {
        var c := NewCursor();
        var sent := c.Execute(ROLLBACK_STATEMENT, response);
        c.FetchAll(laterPages);
        issued := issued + [sent];
        ApplyResponsesAppend(old(currentTransaction.transactionId), [response], laterPages);
      }
    }

    /** Commits an active transaction (not a rollback); otherwise does nothing. */
    method Close(response: Headers, laterPages: seq<Headers>)
      modifies this`issued, currentTransaction
      ensures old(currentTransaction.IsActive()) ==>
        && issued == old(issued) + [old(RequestFor(COMMIT_STATEMENT))]
        && currentTransaction.transactionId
           == ApplyResponses(old(currentTransaction.transactionId), [response] + laterPages)
      ensures !old(currentTransaction.IsActive()) ==>
        issued == old(issued) && unchanged(currentTransaction)
    {
      if currentTransaction.IsActive() {
        Commit(response, laterPages);
      }
    }
  }

  /**
   * A session on one connection: a query outside a transaction, a transaction
   * begun through the connection and observed through a user cursor, then committed.
   */
  method Walkthrough()
  {
    var conn := new Connection("cat", "sch", "src", "user", [("a", "1"), ("b", "2")]);
    var cursor := conn.NewCursor();
    var sent := cursor.Execute("select 1", map[]);
    assert sent.headers[TRANSACTION_HEADER] == NO_TRANSACTION;
    assert sent.headers[SESSION_HEADER] == "a=1,b=2" by {
      var items := SessionHeader.Items([("a", "1"), ("b", "2")]);
      assert items[0] == "a=1" && items[1] == "b=2" && items[1..] == ["b=2"];
    }
    assert !conn.currentTransaction.IsActive();

    conn.Commit(map[], []);
    assert conn.issued == [];

    conn.Begin(map[STARTED_HEADER := "T1"], [map[]]);
    assert |conn.issued| == 1 && conn.issued[0].statement == START_STATEMENT;
    assert conn.currentTransaction.IsActive() && conn.currentTransaction.GetId() == "T1";

    sent := cursor.Execute("insert into b values (1)", map[]);
    assert sent.headers[TRANSACTION_HEADER] == "T1";

    conn.Commit(map[], [map[CLEAR_HEADER := ""]]);
    assert |conn.issued| == 2 && conn.issued[1].statement == COMMIT_STATEMENT;
    assert conn.issued[1].headers[TRANSACTION_HEADER] == "T1";
    assert !conn.currentTransaction.IsActive();

    conn.Close(map[], []);
    assert |conn.issued| == 2;
  }
}
