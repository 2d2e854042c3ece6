/** The query object: every call mutates the token list, the pending negation, the depth and the parameters. */
module WhereBuilder {
  import opened JsonDocs
  import opened WhereClause
  import Decimal

  class AbstractDocumentQuery {
    var whereTokens: seq<Token>
    var negate: bool
    var currentClauseDepth: int
    var queryParameters: map<string, Json>
    const defaultOperator: Operator

    ghost function View(): Query
      reads this
    {
      Query(whereTokens, negate, currentClauseDepth, queryParameters, defaultOperator)
    }

    constructor (defaultOperator: Operator)
      ensures View() == Start(defaultOperator)
    {
      whereTokens, negate, currentClauseDepth, queryParameters := [], false, 0, map[];
      this.defaultOperator := defaultOperator;
    }

    /** `appendOperatorIfNeeded`: looks back for the last where token. */
    method AppendOperatorIfNeeded()
      modifies this`whereTokens
      ensures View() == WithOperator(old(View()))
    {
      var n := |whereTokens|;
      if n == 0 || !(whereTokens[n - 1].Where? || whereTokens[n - 1].Close?) { return; }
      var i := n - 1;
      var search := false;
      assert whereTokens[..n] == whereTokens;
      while i >= 0
        invariant -1 <= i < n && whereTokens == old(whereTokens) && !search
        invariant LastIsSearch(whereTokens) == LastIsSearch(whereTokens[..i + 1])
      {
        if whereTokens[i].Where? {
          search := whereTokens[i].kind.Search?;
          assert LastIsSearch(whereTokens[..i + 1]) == search;
          break;
        }
        assert whereTokens[..i + 1][..i] == whereTokens[..i];
        i := i - 1;
      }
      whereTokens := whereTokens + [Op(if search then Or else defaultOperator)];
    }

    /** `negateIfNeeded`: the `exists ... and` or `true and` it appends first is overwritten by the list it saved. */
    method NegateIfNeeded(fieldName: string)
      modifies this`whereTokens, this`negate
      ensures View() == WithNegation(old(View()))
      decreases if negate then 1 else 0, 0
    {
      if !negate { return; }
      negate := false;
      var tokens := whereTokens;
      if |tokens| == 0 || tokens[|tokens| - 1].Open? {
        if fieldName != "" {
          WhereExists(fieldName);
        } else {
          WhereTrue();
        }
        var _ := AndAlso();
      }
      whereTokens := tokens + [Not];
    }

    /** `whereExists`. */
    method WhereExists(fieldName: string)
      modifies this`whereTokens, this`negate
      ensures View() == Do(old(View()), WhereCall(Plain("exists"), fieldName, []))
      decreases if negate then 1 else 0, 1
    {
      AppendOperatorIfNeeded();
      NegateIfNeeded(fieldName);
      whereTokens := whereTokens + [Where(Plain("exists"), fieldName, [])];
    }

    /** `whereTrue`. */
    method WhereTrue()
      modifies this`whereTokens, this`negate
      ensures View() == Do(old(View()), TrueCall)
      decreases if negate then 1 else 0, 1
    {
      AppendOperatorIfNeeded();
      NegateIfNeeded("");
      whereTokens := whereTokens + [True];
    }

    /** `andAlso`. */
    method AndAlso() returns (ok: bool)
      modifies this`whereTokens
      ensures View() == Do(old(View()), OperatorCall(And))
      ensures ok <==> old(whereTokens) == [] || !old(whereTokens)[|old(whereTokens)| - 1].Op?
    {
      ok := Connect(And);
    }

    /** `orElse`. */
    method OrElse() returns (ok: bool)
      modifies this`whereTokens
      ensures View() == Do(old(View()), OperatorCall(Or))
      ensures ok <==> old(whereTokens) == [] || !old(whereTokens)[|old(whereTokens)| - 1].Op?
    {
      ok := Connect(Or);
    }

    method Connect(op: Operator) returns (ok: bool)
      modifies this`whereTokens
      ensures View() == Do(old(View()), OperatorCall(op))
      ensures ok <==> old(whereTokens) == [] || !old(whereTokens)[|old(whereTokens)| - 1].Op?
    {
      if |whereTokens| == 0 { return true; }
      if whereTokens[|whereTokens| - 1].Op? { return false; }
      whereTokens := whereTokens + [Op(op)];
      ok := true;
    }

    /** `negateNext`. */
    method NegateNext()
      modifies this`negate
      ensures View() == Do(old(View()), NotCall)
    {
      negate := !negate;
    }

    /** `openSubclause`. */
    method OpenSubclause()
      modifies this
      ensures View() == Do(old(View()), OpenCall)
    {
      currentClauseDepth := currentClauseDepth + 1;
      AppendOperatorIfNeeded();
      NegateIfNeeded("");
      whereTokens := whereTokens + [Open];
    }

    /** `closeSubclause`. */
    method CloseSubclause()
      modifies this
      ensures View() == Do(old(View()), CloseCall)
    {
      currentClauseDepth := currentClauseDepth - 1;
      whereTokens := whereTokens + [Close];
    }

    /** `addQueryParameter`. */
    method AddQueryParameter(value: Json) returns (name: string)
      modifies this`queryParameters
      ensures name == Name(|old(queryParameters)|)
      ensures queryParameters == old(queryParameters)[name := value]
    {
      name := "p" + Decimal.Digits(|queryParameters|);
      queryParameters := queryParameters[name := value];
    }

    /** The parameters of one call: two for a range, one per argument of a method call, one otherwise. */
    method AddQueryParameters(values: seq<Json>) returns (names: seq<string>)
      modifies this`queryParameters
      ensures queryParameters == Bind(old(queryParameters), values) && names == BoundNames(old(queryParameters), values)
    {
      names := [];
      var i := 0;
      while i < |values|
        invariant 0 <= i <= |values|
        invariant Bind(queryParameters, values[i..]) == Bind(old(queryParameters), values)
        invariant names + BoundNames(queryParameters, values[i..]) == BoundNames(old(queryParameters), values)
      {
        assert values[i..][1..] == values[i + 1..];
        var name := AddQueryParameter(values[i]);
        names := names + [name];
        i := i + 1;
      }
    }

    /** `addParameter`: refuses a name that is taken. */
    method AddParameter(name: string, value: Json) returns (ok: bool)
      modifies this`queryParameters
      ensures View() == Do(old(View()), ParameterCall(name, value))
      ensures ok <==> Stripped(name) !in old(queryParameters)
    {
      var n := if name != "" && name[0] == '$' then name[1..] else name;
      if n in queryParameters { return false; }
      queryParameters := queryParameters[n := value];
      ok := true;
    }

    /** `whereEqualsWithParams`, which hands a pending negation to its opposite. */
    method WhereEquals(fieldName: string, values: seq<Json>)
      modifies this
      ensures View() == Do(old(View()), WhereCall(Equals, fieldName, values))
      decreases if negate then 1 else 0
    {
      if negate {
        negate := false;
        WhereNotEquals(fieldName, values);
        return;
      }
      AppendOperatorIfNeeded();
      var names := AddQueryParameters(values);
      whereTokens := whereTokens + [Where(Equals, fieldName, names)];
    }

    /** `whereNotEqualsWithParams`. */
    method WhereNotEquals(fieldName: string, values: seq<Json>)
      modifies this
      ensures View() == Do(old(View()), WhereCall(NotEquals, fieldName, values))
      decreases if negate then 1 else 0
    {
      if negate {
        negate := false;
        WhereEquals(fieldName, values);
        return;
      }
      AppendOperatorIfNeeded();
      var names := AddQueryParameters(values);
      whereTokens := whereTokens + [Where(NotEquals, fieldName, names)];
    }

    /** Every other where method, and `searchWithOperator`. */
    method WhereOther(kind: Kind, fieldName: string, values: seq<Json>)
      requires !IsEquality(kind)
      modifies this
      ensures View() == Do(old(View()), WhereCall(kind, fieldName, values))
    {
      AppendOperatorIfNeeded();
      NegateIfNeeded(fieldName);
      var names := AddQueryParameters(values);
      whereTokens := whereTokens + [Where(kind, fieldName, names)];
    }
  }
}
