/**
 * `ConnectionPoolSpecificFactory`: the connection pool info chosen by the
 * configured pool kind, with the pool's MBean found by a pattern that depends
 * on the kind, the web context name and the main data source name.
 *
 * `globalConfig.getConnectionPoolName()`, `globalConfig.getWebContextName()`,
 * the `cuba.dataSourceJndiName` property and the MBean server's registered
 * names are parameters. Text inserted into a pattern by `String.format` is
 * matched literally.
 */
module ConnectionPoolSpecificFactory {
  import opened Wrappers
  import opened JavaStrings
  import opened Regex
  import opened ConnectionPoolUtils

  /** The `ConnectionPoolInfo` built, with the MBean name it was given. */
  datatype PoolInfo =
    | CommonsPool(mbean: Option<string>)
    | TomcatPool(mbean: Option<string>)
    | HikariPool(mbean: Option<string>)
    | EmptyPool

  /** The NullPointerException of `Preconditions.checkNotNull`. */
  datatype FactoryError = NullDataSourceJndiName

  const TomcatPrefix := "java:comp/env/"

  /** `getMainDatasourceName`: the JNDI name without one leading `java:comp/env/`. */
  function MainDatasourceName(jndiName: Option<string>): Result<string, FactoryError> {
    if jndiName.None? then Err(NullDataSourceJndiName)
    else if StartsWith(jndiName.value, TomcatPrefix) then Ok(jndiName.value[|TomcatPrefix|..])
    else Ok(jndiName.value)
  }

  /** Null fails; exactly one prefix is removed; a name without the prefix is kept. */
  lemma MainDatasourceNameStripsOnce(name: string)
    ensures MainDatasourceName(None).Err?
    ensures MainDatasourceName(Some(TomcatPrefix + name)) == Ok(name)
    ensures !StartsWith(name, TomcatPrefix) ==> MainDatasourceName(Some(name)) == Ok(name)
  {
    assert (TomcatPrefix + name)[..|TomcatPrefix|] == TomcatPrefix;
    assert (TomcatPrefix + name)[|TomcatPrefix|..] == name;
  }

  /** `getCommonsRegexPattern`; the unescaped dots of `javax.sql.DataSource` match any character. */
  function CommonsPattern(webContextName: string, datasource: string): Pattern {
    [Lit("Catalina:type=DataSource,host="), OneOrMore(Word),
     Lit(",context=/" + webContextName + ",class=javax"), AnyChar, Lit("sql"), AnyChar,
     Lit("DataSource,name=\"" + datasource + "\"")]
  }

  /** `getTomcatRegexPattern` as written: the web context fills `name=` and the data source `context=/`. */
  function TomcatPatternAsWritten(webContextName: string, datasource: string): Pattern {
    TomcatPatternOf(webContextName, datasource)
  }

  /** `getTomcatRegexPattern` with the data source as the pool's name and the web context as its context. */
  function TomcatPattern(webContextName: string, datasource: string): Pattern {
    TomcatPatternOf(datasource, webContextName)
  }

  function TomcatPatternOf(name: string, context: string): Pattern {
    [Lit("tomcat.jdbc:name=\"" + name + "\",context=/" + context + ",engine=Catalina,type=ConnectionPool,host="),
     OneOrMore(Word), Lit(",class="), OneOrMore(WordOrDot)]
  }

  /** The name tomcat-jdbc registers a pool under. */
  function TomcatMBeanName(datasource: string, context: string, host: string, cls: string): string {
    "tomcat.jdbc:name=\"" + datasource + "\",context=/" + context + ",engine=Catalina,type=ConnectionPool,host=" +
    host + ",class=" + cls
  }

  const HikariPrefixAsWritten := "tcom.zaxxer.hikari:type=Pool ("
  const HikariPrefix := "com.zaxxer.hikari:type=Pool ("

  /** `getHikariRegexPatter` as written. */
  function HikariPatternAsWritten(): Pattern {
    [Lit(HikariPrefixAsWritten), AnyString, Lit(")")]
  }

  /** `getHikariRegexPatter` with the package name `com.zaxxer.hikari`. */
  function HikariPattern(): Pattern {
    [Lit(HikariPrefix), AnyString, Lit(")")]
  }

  /** The name HikariCP registers a pool under. */
  function HikariMBeanName(poolName: string): string {
    HikariPrefix + poolName + ")"
  }

  /** The pattern of a pattern-driven kind matches the pool MBean it looks for. */
  lemma {:induction false} PatternOfMatches(name: string, context: string, host: string, cls: string)
    requires host != "" && AllInClass(Word, host) && cls != "" && AllInClass(WordOrDot, cls)
    ensures Matches(TomcatPatternOf(name, context), TomcatMBeanName(name, context, host, cls))
  {
    var p := TomcatPatternOf(name, context);
    var s := TomcatMBeanName(name, context, host, cls);
    var l := p[0].text;
    assert s == l + host + ",class=" + cls;
    assert StartsWith(s, l);
    var rest := s[|l|..];
    assert rest == host + ",class=" + cls;
    assert p[2..][1..] == [OneOrMore(WordOrDot)];
    assert Matches(p[3..], cls) by {
      assert cls[..|cls|] == cls && cls[|cls|..] == "";
      assert p[3..][1..] == [];
    }
    assert Matches(p[2..], ",class=" + cls) by {
      assert (",class=" + cls)[|",class="|..] == cls;
      assert p[2..][1..] == p[3..];
    }
    assert Matches(p[1..], rest) by {
      assert rest[..|host|] == host;
      assert rest[|host|..] == ",class=" + cls;
      assert p[1..][1..] == p[2..];
    }
  }

  /**
   * The Tomcat pattern as written puts the web context where the pool's name
   * goes: a pool registered under its data source name in the web context is
   * not found, unless the two names are the same.
   */
  lemma TomcatAsWrittenMissesPool(webContextName: string, datasource: string, host: string, cls: string)
    requires host != "" && AllInClass(Word, host) && cls != "" && AllInClass(WordOrDot, cls)
    ensures Matches(TomcatPattern(webContextName, datasource), TomcatMBeanName(datasource, webContextName, host, cls))
    ensures var s := TomcatMBeanName(datasource, webContextName, host, cls);
            Matches(TomcatPatternAsWritten(webContextName, datasource), s) ==>
              StartsWith(s, "tomcat.jdbc:name=\"" + webContextName + "\"")
  {
    PatternOfMatches(datasource, webContextName, host, cls);
    var s := TomcatMBeanName(datasource, webContextName, host, cls);
    var p := TomcatPatternAsWritten(webContextName, datasource);
    LiteralPrefix(p[0].text, p[1..], s);
    assert StartsWith(p[0].text, "tomcat.jdbc:name=\"" + webContextName + "\"");
  }

  /** For the web context "app" and the data source "jdbc/CubaDS" the written pattern misses the pool. */
  lemma TomcatAsWrittenExample()
    ensures var s := TomcatMBeanName("jdbc/CubaDS", "app", "localhost", "DataSource");
            !Matches(TomcatPatternAsWritten("app", "jdbc/CubaDS"), s) &&
            Matches(TomcatPattern("app", "jdbc/CubaDS"), s)
  {
    var s := TomcatMBeanName("jdbc/CubaDS", "app", "localhost", "DataSource");
    PatternOfMatches("jdbc/CubaDS", "app", "localhost", "DataSource");
    var l := TomcatPatternAsWritten("app", "jdbc/CubaDS")[0].text;
    assert s[18] == 'j' && l[18] == 'a';
  }

  /** The Hikari pattern as written matches no pool HikariCP registers; the corrected one matches all of them. */
  lemma HikariAsWrittenMissesPools(poolName: string)
    ensures !Matches(HikariPatternAsWritten(), HikariMBeanName(poolName))
    ensures Matches(HikariPattern(), HikariMBeanName(poolName))
  {
    var s := HikariMBeanName(poolName);
    LiteralPrefix(HikariPrefixAsWritten, HikariPatternAsWritten()[1..], s);
    assert !StartsWith(s, HikariPrefixAsWritten) by {
      assert s[0] != HikariPrefixAsWritten[0];
    }
    var p := HikariPattern();
    var rest := s[|HikariPrefix|..];
    assert rest == poolName + ")";
    assert Matches(p[1..], rest) by {
      assert rest[|poolName|..] == ")";
      assert p[1..][1..] == [Lit(")")];
      assert Matches(p[1..][1..], rest[|poolName|..]) by {
        assert ")"[1..] == "";
      }
    }
  }

  // ---------------------------------------------------------------------------
  // The dispatch

  predicate Supported(poolName: string) {
    poolName == "COMMONS" || poolName == "TOMCAT" || poolName == "HIKARI"
  }

  /**
   * Which TOMCAT and HIKARI patterns the dispatch searches with: the ones
   * `getTomcatRegexPattern` and `getHikariRegexPatter` build, or the
   * corrected ones. The COMMONS pattern is the same in both.
   */
  datatype Patterns = AsWritten | Corrected

  function TomcatPatternIn(patterns: Patterns, webContextName: string, datasource: string): Pattern {
    if patterns == AsWritten then TomcatPatternAsWritten(webContextName, datasource)
    else TomcatPattern(webContextName, datasource)
  }

  function HikariPatternIn(patterns: Patterns): Pattern {
    if patterns == AsWritten then HikariPatternAsWritten() else HikariPattern()
  }

  /** The pattern each supported kind searches with; COMMONS and TOMCAT need the data source name. */
  function PoolPattern(patterns: Patterns, poolName: string, webContextName: string, jndiName: Option<string>)
    : Result<Pattern, FactoryError>
    requires Supported(poolName)
  {
    if poolName == "HIKARI" then Ok(HikariPatternIn(patterns))
    else
      var ds := MainDatasourceName(jndiName);
      if ds.Err? then Err(ds.error)
      else if poolName == "COMMONS" then Ok(CommonsPattern(webContextName, ds.value))
      else Ok(TomcatPatternIn(patterns, webContextName, ds.value))
  }

  function PoolOf(poolName: string, registered: Option<string>): PoolInfo
    requires Supported(poolName)
  {
    if poolName == "COMMONS" then CommonsPool(registered)
    else if poolName == "TOMCAT" then TomcatPool(registered)
    else HikariPool(registered)
  }

  /** `getConnectionPoolInfo` searching with the given patterns; `AsWritten` is the program. */
  function PoolInfoFor(patterns: Patterns, poolName: string, webContextName: string, jndiName: Option<string>,
                       names: seq<string>): Result<PoolInfo, FactoryError>
  {
    if !Supported(poolName) then Ok(EmptyPool)
    else
      var pattern := PoolPattern(patterns, poolName, webContextName, jndiName);
      if pattern.Err? then Err(pattern.error)
      else
        var registered := FirstMatch(pattern.value, names);
        if registered.None? then Ok(EmptyPool) else Ok(PoolOf(poolName, registered))
  }

  /**
   * With either family of patterns: an unsupported kind, or a kind whose
   * pattern matches no registered name, gives the empty info; only COMMONS and
   * TOMCAT without a JNDI name fail; any other info is of the configured kind,
   * with the first registered name its pattern matches.
   */
  lemma PoolInfoOutcome(patterns: Patterns, poolName: string, webContextName: string, jndiName: Option<string>,
                        names: seq<string>)
    ensures var r := PoolInfoFor(patterns, poolName, webContextName, jndiName, names);
            (!Supported(poolName) ==> r == Ok(EmptyPool)) &&
            (r.Err? <==> (poolName == "COMMONS" || poolName == "TOMCAT") && jndiName.None?) &&
            (Supported(poolName) && PoolPattern(patterns, poolName, webContextName, jndiName).Ok? &&
             (forall i :: 0 <= i < |names| ==> !Matches(PoolPattern(patterns, poolName, webContextName, jndiName).value, names[i])) ==>
               r == Ok(EmptyPool)) &&
            (r.Ok? && r.value != EmptyPool ==>
               Supported(poolName) && r.value.mbean.Some? &&
               (r.value.CommonsPool? <==> poolName == "COMMONS") &&
               (r.value.TomcatPool? <==> poolName == "TOMCAT") &&
               exists i :: 0 <= i < |names| && names[i] == r.value.mbean.value &&
                 Matches(PoolPattern(patterns, poolName, webContextName, jndiName).value, names[i]) &&
                 forall j :: 0 <= j < i ==> !Matches(PoolPattern(patterns, poolName, webContextName, jndiName).value, names[j]))
  {
    if Supported(poolName) {
      var pattern := PoolPattern(patterns, poolName, webContextName, jndiName);
      if pattern.Ok? {
        FirstMatchIsFirst(pattern.value, names);
      }
    }
  }

  /**
   * As written, HIKARI never finds a pool: whatever is registered, as long
   * as no name begins with the misspelt "tcom.zaxxer.hikari:type=Pool (", the
   * info is the empty one. That covers every name HikariCP registers.
   */
  lemma HikariAsWrittenFindsNothing(webContextName: string, jndiName: Option<string>, names: seq<string>)
    requires forall i :: 0 <= i < |names| ==> !StartsWith(names[i], HikariPrefixAsWritten)
    ensures PoolInfoFor(AsWritten, "HIKARI", webContextName, jndiName, names) == Ok(EmptyPool)
  {
    forall i | 0 <= i < |names|
      ensures !Matches(HikariPatternAsWritten(), names[i])
    {
      LiteralPrefix(HikariPrefixAsWritten, HikariPatternAsWritten()[1..], names[i]);
    }
    PoolInfoOutcome(AsWritten, "HIKARI", webContextName, jndiName, names);
  }

  /** As written, HIKARI gives the empty info over any list of HikariCP pools. */
  lemma HikariAsWrittenMissesRegisteredPools(webContextName: string, jndiName: Option<string>, poolNames: seq<string>)
    ensures var names := seq(|poolNames|, i requires 0 <= i < |poolNames| => HikariMBeanName(poolNames[i]));
            PoolInfoFor(AsWritten, "HIKARI", webContextName, jndiName, names) == Ok(EmptyPool)
  {
    var names := seq(|poolNames|, i requires 0 <= i < |poolNames| => HikariMBeanName(poolNames[i]));
    forall i | 0 <= i < |names|
      ensures !StartsWith(names[i], HikariPrefixAsWritten)
    {
      assert names[i][0] != HikariPrefixAsWritten[0];
    }
    HikariAsWrittenFindsNothing(webContextName, jndiName, names);
  }

  /** With the corrected patterns and a HikariCP pool registered, HIKARI finds it. */
  lemma HikariPoolFound(webContextName: string, jndiName: Option<string>, poolName: string)
    ensures PoolInfoFor(Corrected, "HIKARI", webContextName, jndiName, [HikariMBeanName(poolName)]) ==
            Ok(HikariPool(Some(HikariMBeanName(poolName))))
  {
    HikariAsWrittenMissesPools(poolName);
  }

  /**
   * For the web context "app" and the data source "jdbc/CubaDS", with only
   * that tomcat-jdbc pool registered, TOMCAT as written gives the empty info
   * and the corrected pattern finds the pool.
   */
  lemma TomcatDispatchExample()
    ensures var name := TomcatMBeanName("jdbc/CubaDS", "app", "localhost", "DataSource");
            PoolInfoFor(AsWritten, "TOMCAT", "app", Some("jdbc/CubaDS"), [name]) == Ok(EmptyPool) &&
            PoolInfoFor(Corrected, "TOMCAT", "app", Some("jdbc/CubaDS"), [name]) == Ok(TomcatPool(Some(name)))
  {
    assert !StartsWith("jdbc/CubaDS", TomcatPrefix) by {
      assert "jdbc/CubaDS"[1] != TomcatPrefix[1];
    }
    TomcatAsWrittenExample();
  }

  /** `getConnectionPoolInfo`: the switch picks the pattern and the info, then a missing MBean gives the empty info. */
  method GetConnectionPoolInfo(patterns: Patterns, poolName: string, webContextName: string, jndiName: Option<string>,
                               names: seq<string>)
    returns (r: Result<PoolInfo, FactoryError>)
    ensures r == PoolInfoFor(patterns, poolName, webContextName, jndiName, names)
  {
    var registered: Option<string>;
    var info: PoolInfo;
    if poolName == "COMMONS" {
      var ds := MainDatasourceName(jndiName);
      if ds.Err? {
        return Err(ds.error);
      }
      registered := FindFirstMatching(CommonsPattern(webContextName, ds.value), names);
      info := CommonsPool(registered);
    } else if poolName == "TOMCAT" {
      var ds := MainDatasourceName(jndiName);
      if ds.Err? {
        return Err(ds.error);
      }
      registered := FindFirstMatching(TomcatPatternIn(patterns, webContextName, ds.value), names);
      info := TomcatPool(registered);
    } else if poolName == "HIKARI" {
      registered := FindFirstMatching(HikariPatternIn(patterns), names);
      info := HikariPool(registered);
    } else {
      return Ok(EmptyPool);
    }
    if registered.None? {
      return Ok(EmptyPool);
    }
    return Ok(info);
  }
}
