/**
 * Worked instances of the conversion, one per behaviour the integration
 * tests pin down.
 */
module Scenarios {
  import opened Wrappers
  import opened JsValues
  import opened Placeholders
  import opened ParamConversion
  import opened Layer

  // ---------------------------------------------------------------------------
  // Statements with three placeholders
  // ---------------------------------------------------------------------------

  /** Four gaps woven with three fills. */
  lemma WeaveFour(g0: string, g1: string, g2: string, g3: string, f0: string, f1: string, f2: string)
    ensures Weave([g0, g1, g2, g3], [f0, f1, f2]) == g0 + f0 + g1 + f1 + g2 + f2 + g3
  {
    WeaveCons(g2, [g3], f2, []);
    assert [g2, g3] == [g2] + [g3] && [f2] == [f2] + [];
    WeaveCons(g1, [g2, g3], f1, [f2]);
    assert [g1, g2, g3] == [g1] + [g2, g3] && [f1, f2] == [f1] + [f2];
    WeaveCons(g0, [g1, g2, g3], f0, [f1, f2]);
    assert [g0, g1, g2, g3] == [g0] + [g1, g2, g3] && [f0, f1, f2] == [f0] + [f1, f2];
  }

  /** A statement laid out as gap, token, gap, token, gap, token, gap is scanned back into those pieces. */
  lemma ScanThree(s: string, g0: string, g1: string, g2: string, g3: string, t0: string, t1: string, t2: string)
    requires s == g0 + t0 + g1 + t1 + g2 + t2 + g3
    requires NoPlaceholder(g0) && NoPlaceholder(g1) && NoPlaceholder(g2) && NoPlaceholder(g3)
    requires IsToken(t0) && IsToken(t1) && IsToken(t2)
    requires |g1| > 0 && !IsWordChar(g1[0]) && |g2| > 0 && !IsWordChar(g2[0]) && |g3| > 0 && !IsWordChar(g3[0])
    ensures Tokens(s, 0) == [t0, t1, t2]
    ensures Gaps(s, 0) == [g0, g1, g2, g3]
  {
    var gaps, toks := [g0, g1, g2, g3], [t0, t1, t2];
    WeaveFour(g0, g1, g2, g3, t0, t1, t2);
    assert s[0..] == s;
    assert Separated(gaps);
    ScanWeave(s, 0, gaps, toks);
  }

  /** A binding in which every placeholder's value is truthy succeeds with those values. */
  lemma BindsAll(s: string, props: map<string, JsValue>, tokens: seq<string>, values: seq<JsValue>)
    requires Tokens(s, 0) == tokens && |values| == |tokens|
    requires forall i :: 0 <= i < |values| ==> Get(props, Key(tokens[i])) == values[i] && Truthy(values[i])
    ensures BindNamed(s, props) == Ok(Bound(Rewrite(s), values))
  {
    assert forall i :: 0 <= i < |tokens| ==> Supplied(props, tokens[i]);
    assert Lookups(props, tokens) == values;
  }

  /** A falsy first placeholder fails the binding on that placeholder. */
  lemma FailsOnFirst(s: string, props: map<string, JsValue>)
    requires |Tokens(s, 0)| > 0 && !Supplied(props, Tokens(s, 0)[0])
    ensures BindNamed(s, props) == Err(NotFound(Tokens(s, 0)[0]))
  {
  }

  /** Three placeholders are rewritten into `$1`, `$2`, `$3` in place. */
  lemma RewriteThree(s: string, g0: string, g1: string, g2: string, g3: string)
    requires Gaps(s, 0) == [g0, g1, g2, g3] && |Tokens(s, 0)| == 3
    ensures Rewrite(s) == g0 + "$1" + g1 + "$2" + g2 + "$3" + g3
  {
    assert DecimalString(1) == "1" && DecimalString(2) == "2" && DecimalString(3) == "3";
    var run := PlaceholderRun(1, 3);
    assert run[0] == "$1" && run[1] == "$2" && run[2] == "$3";
    assert run == ["$1", "$2", "$3"];
    WeaveFour(g0, g1, g2, g3, "$1", "$2", "$3");
  }

  // ---------------------------------------------------------------------------
  // A repeated name
  // ---------------------------------------------------------------------------

  /** The three placeholders of `(@a, @b, @a)`, found in order, a repeated name twice. */
  lemma RepeatedNameTokens()
    ensures Tokens("(@a, @b, @a)", 0) == ["@a", "@b", "@a"]
    ensures Gaps("(@a, @b, @a)", 0) == ["(", ", ", ", ", ")"]
  {
    ScanThree("(@a, @b, @a)", "(", ", ", ", ", ")", "@a", "@b", "@a");
  }

  /** Each occurrence gets its own positional slot. */
  lemma RepeatedNameRewrite()
    ensures Rewrite("(@a, @b, @a)") == "($1, $2, $3)"
  {
    RepeatedNameTokens();
    RewriteThree("(@a, @b, @a)", "(", ", ", ", ", ")");
    RepeatedNameText();
  }

  /** The rewritten text of `(@a, @b, @a)`. */
  lemma RepeatedNameText()
    ensures "(" + "$1" + ", " + "$2" + ", " + "$3" + ")" == "($1, $2, $3)"
  {
  }

  /** The values of `@a`, `@b`, `@a` in the example object, all truthy. */
  lemma RepeatedNameValues(props: map<string, JsValue>)
    requires props == map["a" := Num(5.0), "b" := Str("Duck"), "c" := Null]
    ensures var tokens, values := ["@a", "@b", "@a"], [Num(5.0), Str("Duck"), Num(5.0)];
      forall i :: 0 <= i < |values| ==> Get(props, Key(tokens[i])) == values[i] && Truthy(values[i])
  {
    assert Key("@a") == "a" && Key("@b") == "b";
  }

  /** A repeated name's value is sent once per occurrence; keys nobody references are ignored. */
  lemma RepeatedNameExample()
    ensures BindNamed("(@a, @b, @a)", map["a" := Num(5.0), "b" := Str("Duck"), "c" := Null])
         == Ok(Bound("($1, $2, $3)", [Num(5.0), Str("Duck"), Num(5.0)]))
  {
    var props := map["a" := Num(5.0), "b" := Str("Duck"), "c" := Null];
    RepeatedNameTokens();
    RepeatedNameRewrite();
    RepeatedNameValues(props);
    BindsAll("(@a, @b, @a)", props, ["@a", "@b", "@a"], [Num(5.0), Str("Duck"), Num(5.0)]);
  }

  // ---------------------------------------------------------------------------
  // The product insert
  // ---------------------------------------------------------------------------

  /** The placeholders of the product insert and the text around them. */
  lemma InsertProductTokens()
    ensures Tokens("INSERT INTO products VALUES (@product_no, @name, @price)", 0) == ["@product_no", "@name", "@price"]
    ensures Gaps("INSERT INTO products VALUES (@product_no, @name, @price)", 0)
         == ["INSERT INTO products VALUES (", ", ", ", ", ")"]
  {
    InsertProductHead();
    ScanThree("INSERT INTO products VALUES (@product_no, @name, @price)",
              "INSERT INTO products VALUES (", ", ", ", ", ")", "@product_no", "@name", "@price");
  }

  /** The text before the first placeholder of the product insert has no `@` at all. */
  lemma InsertProductHead()
    ensures NoPlaceholder("INSERT INTO products VALUES (")
  {
    var g := "INSERT INTO products VALUES (";
    forall q | 0 <= q < |g| ensures !TokenStart(g, q) {
      assert g[q] != '@';
    }
  }

  /** The rewritten text of the product insert. */
  lemma InsertProductText()
    ensures "INSERT INTO products VALUES (" + "$1" + ", " + "$2" + ", " + "$3" + ")"
         == "INSERT INTO products VALUES ($1, $2, $3)"
  {
  }

  /** The values of `@product_no`, `@name`, `@price` in the example object, all truthy. */
  lemma ProductValues(props: map<string, JsValue>)
    requires props == map["name" := Str("Duck"), "product_no" := Num(5.0), "price" := Num(0.99)]
    ensures var tokens, values := ["@product_no", "@name", "@price"], [Num(5.0), Str("Duck"), Num(0.99)];
      forall i :: 0 <= i < |values| ==> Get(props, Key(tokens[i])) == values[i] && Truthy(values[i])
  {
    assert Key("@product_no") == "product_no" && Key("@name") == "name" && Key("@price") == "price";
  }

  /** The product insert with every key present becomes `$1, $2, $3` with the values in placeholder order. */
  lemma CreateProductExample()
    ensures BindNamed("INSERT INTO products VALUES (@product_no, @name, @price)",
                      map["name" := Str("Duck"), "product_no" := Num(5.0), "price" := Num(0.99)])
         == Ok(Bound("INSERT INTO products VALUES ($1, $2, $3)", [Num(5.0), Str("Duck"), Num(0.99)]))
  {
    var s := "INSERT INTO products VALUES (@product_no, @name, @price)";
    var props := map["name" := Str("Duck"), "product_no" := Num(5.0), "price" := Num(0.99)];
    InsertProductTokens();
    RewriteThree(s, "INSERT INTO products VALUES (", ", ", ", ", ")");
    InsertProductText();
    ProductValues(props);
    BindsAll(s, props, ["@product_no", "@name", "@price"], [Num(5.0), Str("Duck"), Num(0.99)]);
  }

  /** A misspelt key fails on the placeholder that finds no value. */
  lemma MisspeltKeyExample()
    ensures BindNamed("INSERT INTO products VALUES (@product_no, @name, @price)",
                      map["name" := Str("Duck"), "product_n" := Num(5.0), "price" := Num(0.99)])
         == Err(NotFound("@product_no"))
  {
    var s := "INSERT INTO products VALUES (@product_no, @name, @price)";
    var props := map["name" := Str("Duck"), "product_n" := Num(5.0), "price" := Num(0.99)];
    InsertProductTokens();
    assert Key("@product_no") == "product_no" && "product_no" !in props;
    FailsOnFirst(s, props);
  }

  // ---------------------------------------------------------------------------
  // An `@` operator beside a placeholder
  // ---------------------------------------------------------------------------

  /** The containment operator `@>` is no placeholder; only `@wanted` is. */
  lemma OperatorTokens()
    ensures Tokens("WHERE tags @> @wanted", 0) == ["@wanted"]
    ensures Gaps("WHERE tags @> @wanted", 0) == ["WHERE tags @> ", ""]
  {
    var s := "WHERE tags @> @wanted";
    var gaps, toks := ["WHERE tags @> ", ""], ["@wanted"];
    WeaveOne("WHERE tags @> ", "", "@wanted");
    assert s[0..] == s;
    ScanWeave(s, 0, gaps, toks);
  }

  /** The operator stays in the statement and the placeholder becomes `$1`. */
  lemma OperatorRewrite()
    ensures Rewrite("WHERE tags @> @wanted") == "WHERE tags @> $1"
  {
    OperatorTokens();
    RewriteOne("WHERE tags @> @wanted", "WHERE tags @> ", "");
    OperatorText();
  }

  /** The rewritten text of the operator statement. */
  lemma OperatorText()
    ensures "WHERE tags @> " + "$1" + "" == "WHERE tags @> $1"
  {
  }

  /** Two gaps woven with one fill. */
  lemma WeaveOne(g0: string, g1: string, f0: string)
    ensures Weave([g0, g1], [f0]) == g0 + f0 + g1
  {
    assert [g0, g1][1..] == [g1] && [f0][1..] == [];
  }

  /** One placeholder is rewritten into `$1` in place. */
  lemma RewriteOne(s: string, g0: string, g1: string)
    requires Gaps(s, 0) == [g0, g1] && |Tokens(s, 0)| == 1
    ensures Rewrite(s) == g0 + "$1" + g1
  {
    assert DecimalString(1) == "1";
    var run := PlaceholderRun(1, 1);
    assert run[0] == Placeholder(1) == "$1";
    assert run == ["$1"];
    WeaveOne(g0, g1, "$1");
  }

  /** A placeholder next to an operator binds like any other. */
  lemma OperatorExample()
    ensures BindNamed("WHERE tags @> @wanted", map["wanted" := Str("sql")])
         == Ok(Bound("WHERE tags @> $1", [Str("sql")]))
  {
    OperatorTokens();
    OperatorRewrite();
    assert Key("@wanted") == "wanted";
    BindsAll("WHERE tags @> @wanted", map["wanted" := Str("sql")], ["@wanted"], [Str("sql")]);
  }

  /** An object without placeholders in the statement binds nothing. */
  lemma ExtraKeysExample()
    ensures BindNamed("SELECT * FROM products", map["notuseful" := Bool(false)])
         == Ok(Bound("SELECT * FROM products", []))
  {
    var s := "SELECT * FROM products";
    assert forall q :: 0 <= q < |s| ==> s[q] != '@';
    BindNamedNoPlaceholders(s, map["notuseful" := Bool(false)]);
  }

  /** `null` and `undefined` entries, `{value: null}` and `{}` go out as `null`; `0` and `''`, bare or wrapped, go out as they are. */
  lemma NormalizeExamples()
    ensures NormalizeAll([Null, Undefined, Num(6.0)]) == [Null, Null, Num(6.0)]
    ensures NormalizeAll([Obj(map["value" := Null]), Obj(map[]), Num(5.0)]) == [Null, Null, Num(5.0)]
    ensures NormalizeAll([Num(0.0), Str(""), Num(6.0)]) == [Num(0.0), Str(""), Num(6.0)]
    ensures NormalizeAll([Obj(map["value" := Num(0.0)]), Obj(map["value" := Str("")]), Num(5.0)])
         == [Num(0.0), Str(""), Num(5.0)]
  {
  }

  /** The Postgres dialect quotes identifiers with double quotes. */
  lemma WrapExample()
    ensures Wrap("abc") == "\"abc\""
  {
  }
}
