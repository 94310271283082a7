/**
 * `ConnectionPoolUtils`: finding the MBean of the connection pool and the
 * name of the main data source. The MBean server's registered names are given
 * as a sequence, in the order the set iterates; each name is its
 * `ObjectName.toString()`.
 */
module ConnectionPoolUtils {
  import opened Wrappers
  import opened JavaStrings
  import opened Regex

  /** The first name the pattern matches. */
  function FirstMatch(pattern: Pattern, names: seq<string>): Option<string> {
    if names == [] then None
    else if Matches(pattern, names[0]) then Some(names[0])
    else FirstMatch(pattern, names[1..])
  }

  /** A name is found exactly when one matches, and it is the first that does. */
  lemma {:induction false} FirstMatchIsFirst(pattern: Pattern, names: seq<string>)
    ensures var r := FirstMatch(pattern, names);
            (r.None? <==> forall i :: 0 <= i < |names| ==> !Matches(pattern, names[i])) &&
            (r.Some? ==> exists i :: 0 <= i < |names| && names[i] == r.value && Matches(pattern, names[i]) &&
                                     forall j :: 0 <= j < i ==> !Matches(pattern, names[j]))
  {
    if names != [] && !Matches(pattern, names[0]) {
      var tail := names[1..];
      FirstMatchIsFirst(pattern, tail);
      assert forall i :: 0 <= i < |tail| ==> tail[i] == names[i + 1];
      var r := FirstMatch(pattern, names);
      if r.Some? {
        var i :| 0 <= i < |tail| && tail[i] == r.value && Matches(pattern, tail[i]) &&
                 forall j :: 0 <= j < i ==> !Matches(pattern, tail[j]);
        assert names[i + 1] == r.value && forall j :: 0 <= j < i + 1 ==> !Matches(pattern, names[j]);
      } else {
        assert forall i :: 0 <= i < |names| ==> !Matches(pattern, names[i]) by {
          forall i | 0 <= i < |names| ensures !Matches(pattern, names[i]) {
            if i > 0 {
              assert names[i] == tail[i - 1];
            }
          }
        }
      }
    }
  }

  /** The loop over the registered names, returning the first that matches. */
  method FindFirstMatching(pattern: Pattern, names: seq<string>) returns (r: Option<string>)
    ensures r == FirstMatch(pattern, names)
  {
    for i := 0 to |names|
      invariant FirstMatch(pattern, names) == FirstMatch(pattern, names[i..])
    {
      assert names[i..][1..] == names[i + 1..];
      if Matches(pattern, names[i]) {
        return Some(names[i]);
      }
    }
    return None;
  }

  /** `getPoolObjectName`: a null pattern gives null before the MBean server is asked. */
  method PoolObjectName(pattern: Option<Pattern>, names: seq<string>) returns (r: Option<string>)
    ensures pattern.None? ==> r.None?
    ensures pattern.Some? ==> r == FirstMatch(pattern.value, names)
  {
    if pattern.None? {
      return None;
    }
    r := FindFirstMatching(pattern.value, names);
  }

  // ---------------------------------------------------------------------------
  // The main data source

  const DefaultDatasourceName := "CubaDS"

  /** `parts[parts.length - 1]` on an empty array. */
  datatype DatasourceError = IndexOutOfBounds(index: int)

  /** `getMainDatasourceName`: the last piece of `jndiName.split("/")`, or the default when unset. */
  function MainDatasourceName(jndiName: Option<string>): Result<string, DatasourceError> {
    if jndiName.None? then Ok(DefaultDatasourceName)
    else
      var parts := JavaSplit(jndiName.value, '/');
      if parts == [] then Err(IndexOutOfBounds(-1)) else Ok(parts[|parts| - 1])
  }

  /** `s` without its trailing run of `c`. */
  function StripTrailing(s: string, c: char): (t: string)
    ensures |t| <= |s| && t == s[..|t|]
    ensures forall i :: |t| <= i < |s| ==> s[i] == c
    ensures t == "" || t[|t| - 1] != c
  {
    if s != "" && s[|s| - 1] == c then StripTrailing(s[..|s| - 1], c) else s
  }

  /** Stripping a run of `c` from a string that does not end in `c` gives the string. */
  lemma {:induction false} StripAppended(j: string, n: nat, c: char)
    requires j != "" && j[|j| - 1] != c
    ensures StripTrailing(j + Repeat(c, n), c) == j
  {
    if n > 0 {
      var s := j + Repeat(c, n);
      assert s[..|s| - 1] == j + Repeat(c, n - 1);
      StripAppended(j, n - 1, c);
    }
  }

  predicate OnlySlashes(s: string) {
    forall i :: 0 <= i < |s| ==> s[i] == '/'
  }

  /** When `split` keeps no piece, the name is slashes only. */
  lemma NoPieceKept(s: string)
    requires '/' in s && DropTrailingEmpty(SplitOn(s, '/')) == []
    ensures OnlySlashes(s)
  {
    var parts := SplitOn(s, '/');
    DropTrailingEmptyShape(parts);
    JoinOfEmpty(parts, '/');
  }

  /**
   * The pieces `split` keeps, when there are any, are separator-free, end in a
   * non-empty one, and join to the name without its trailing slashes, which
   * is then not slashes only.
   */
  lemma KeptPieces(s: string)
    requires '/' in s && DropTrailingEmpty(SplitOn(s, '/')) != []
    ensures var kept := DropTrailingEmpty(SplitOn(s, '/'));
            !OnlySlashes(s) && kept[|kept| - 1] != "" && StripTrailing(s, '/') == Join(kept, '/') &&
            forall k :: 0 <= k < |kept| ==> '/' !in kept[k]
  {
    KeptPiecesOf(SplitOn(s, '/'), s);
  }

  lemma KeptPiecesOf(parts: seq<string>, s: string)
    requires |parts| > 0 && Join(parts, '/') == s && forall k :: 0 <= k < |parts| ==> '/' !in parts[k]
    requires DropTrailingEmpty(parts) != []
    ensures var kept := DropTrailingEmpty(parts);
            !OnlySlashes(s) && kept[|kept| - 1] != "" && StripTrailing(s, '/') == Join(kept, '/') &&
            forall k :: 0 <= k < |kept| ==> '/' !in kept[k]
  {
    var kept := DropTrailingEmpty(parts);
    DropTrailingEmptyShape(parts);
    assert forall k :: 0 <= k < |kept| ==> kept[k] == parts[k];
    var j := Join(kept, '/');
    var n := |parts| - |kept|;
    assert s == j + Repeat('/', n) by {
      JoinTrailingEmpty(parts, |kept|, '/');
    }
    var last := kept[|kept| - 1];
    assert j != [] && j[|j| - 1] != '/' by {
      JoinEndsWithLast(kept, '/');
      assert j[|j| - |last|..] == last;
      assert j[|j| - |last|..][|last| - 1] == j[|j| - 1];
      assert last[|last| - 1] in last;
    }
    assert !OnlySlashes(s) by {
      assert s[|j| - 1] == j[|j| - 1];
    }
    StripAppended(j, n, '/');
  }

  /** The text after the last separator of a join of separator-free pieces is the last piece. */
  lemma LastPieceOfJoin(kept: seq<string>)
    requires |kept| > 0 && forall k :: 0 <= k < |kept| ==> '/' !in kept[k]
    ensures var t := Join(kept, '/');
            (if '/' in t then t[LastIndexOfChar(t, '/') + 1..] else t) == kept[|kept| - 1]
  {
    SplitJoin(kept, '/');
    var t := Join(kept, '/');
    if '/' in t {
      var i := LastIndexOfChar(t, '/');
      assert SplitOn(t, '/') == SplitOn(t[..i], '/') + [t[i + 1..]];
    }
  }

  /**
   * Unset gives "CubaDS"; a name without '/' is itself; a name of slashes only
   * fails; any other name gives its last segment once the trailing slashes are
   * removed: the text after the last remaining '/', never empty.
   */
  lemma MainDatasourceNameOutcome(jndiName: Option<string>)
    ensures jndiName.None? ==> MainDatasourceName(jndiName) == Ok("CubaDS")
    ensures jndiName.Some? && '/' !in jndiName.value ==> MainDatasourceName(jndiName) == Ok(jndiName.value)
    ensures jndiName.Some? && jndiName.value != "" && OnlySlashes(jndiName.value) ==> MainDatasourceName(jndiName).Err?
    ensures jndiName.Some? && !OnlySlashes(jndiName.value) ==>
              var t := StripTrailing(jndiName.value, '/');
              var r := MainDatasourceName(jndiName);
              r.Ok? && r.value != "" && '/' !in r.value &&
              r.value == if '/' in t then t[LastIndexOfChar(t, '/') + 1..] else t
  {
    if jndiName.Some? && '/' in jndiName.value {
      var s := jndiName.value;
      var kept := DropTrailingEmpty(SplitOn(s, '/'));
      assert JavaSplit(s, '/') == kept;
      if kept == [] {
        NoPieceKept(s);
      } else {
        KeptPieces(s);
        LastPieceOfJoin(kept);
      }
    } else if jndiName.Some? && jndiName.value != "" {
      assert jndiName.value[0] in jndiName.value;
    }
  }
}
