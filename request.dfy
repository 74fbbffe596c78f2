/** Turning a request line into a command, a fixture name and a query dictionary, as the mock
    device does with `urlparse`, `parse_qsl` and `dict` (tests/__init__.py lines 95-100). Only
    the part of `urlparse` these lines exercise is modelled: scheme, network location, path,
    query and fragment, and the `hostname` property. */
module Request {
  import opened Wrappers
  import opened Strings
  import opened Dicts

  type Query = map<string, string>

  datatype Url = Url(scheme: string, netloc: string, path: string, query: string, fragment: string)

  /** A parsed request line: the line itself, `hostname + path`, the fixture name derived from
      them, and the query dictionary. */
  datatype Request = Request(line: string, command: string, fixtureName: string, query: Query)

  predicate IsSchemeChar(c: char)
  {
    ('a' <= c <= 'z') || ('A' <= c <= 'Z') || ('0' <= c <= '9') || c == '+' || c == '-' || c == '.'
  }

  /** `scheme:rest`, when the text before the first `:` is a non-empty run of scheme characters. */
  function SplitScheme(url: string): (string, string)
  {
    var i := IndexOfAny(url, {':'});
    if 0 < i < |url| && forall k | 0 <= k < i :: IsSchemeChar(url[k])
    then (Lower(url[..i]), url[i + 1..])
    else ("", url)
  }

  /** `//netloc/rest`: the network location runs up to the first `/`, `?` or `#`. */
  function SplitNetloc(url: string): (string, string)
  {
    if |url| >= 2 && url[..2] == "//" then
      var rest := url[2..];
      var j := IndexOfAny(rest, {'/', '?', '#'});
      (rest[..j], rest[j..])
    else ("", url)
  }

  /** `urlparse(line)` for the components this model uses. */
  function ParseUrl(line: string): Url
  {
    var afterScheme := SplitScheme(line);
    var afterNetloc := SplitNetloc(afterScheme.1);
    var r := afterNetloc.1;
    var f := IndexOfAny(r, {'#'});
    var beforeFragment := r[..f];
    var q := IndexOfAny(beforeFragment, {'?'});
    Url(afterScheme.0, afterNetloc.0, beforeFragment[..q],
        if q < |beforeFragment| then beforeFragment[q + 1..] else "",
        if f < |r| then r[f + 1..] else "")
  }

  /** The `hostname` property: the network location after any `user@` and before any `:port`,
      lower-cased; `None` when that is empty. */
  function Hostname(netloc: string): Option<string>
  {
    var host := AfterLast(netloc, '@');
    var name := host[..IndexOfAny(host, {':'})];
    if name == "" then None else Some(Lower(name))
  }

  /** `value.replace('+', ' ')` as `parse_qsl` does before unquoting. */
  function Unplus(s: string): string
  {
    Replace(s, "+", " ")
  }

  /** The loop of `parse_qsl(qs)` with `keep_blank_values` false: empty fields, fields without
      `=` and fields with an empty value are dropped; the name ends at the first `=`. */
  function QueryPairs(fields: seq<string>): seq<(string, string)>
  {
    if |fields| == 0 then []
    else
      var field := fields[0];
      var e := IndexOfAny(field, {'='});
      var rest := QueryPairs(fields[1..]);
      if e + 1 >= |field| then rest
      else [(Unplus(field[..e]), Unplus(field[e + 1..]))] + rest
  }

  /** `dict(parse_qsl(qs))`. */
  function ParseQuery(qs: string): Query
  {
    DictOf(QueryPairs(Split(qs, "&")))
  }

  /** `command = hostname + path`. */
  function CommandOf(hostname: string, path: string): string
  {
    hostname + path
  }

  /** `"{}.{}".format(hostname, path.lstrip('/'))`. */
  function FixtureNameOf(hostname: string, path: string): string
  {
    hostname + "." + LStrip(path, '/')
  }

  /** Lines 95-100 of the request loop. `None` stands for the `TypeError` that
      `url_parts.hostname + url_parts.path` raises when the line has no host. */
  function ParseRequest(line: string): Option<Request>
  {
    var url := ParseUrl(line);
    match Hostname(url.netloc)
    case None => None
    case Some(host) =>
      Some(Request(line, CommandOf(host, url.path), FixtureNameOf(host, url.path), ParseQuery(url.query)))
  }

  /** A field `name=value` is kept by `parse_qsl` exactly when the value is non-empty, and
      `QueryPairs` keeps the kept fields in order. */
  lemma {:induction false} QueryPairsOfFields(names: seq<string>, values: seq<string>)
    requires |names| == |values|
    requires forall k :: 0 <= k < |names| ==> '=' !in names[k] && |values[k]| > 0
    ensures QueryPairs(seq(|names|, k requires 0 <= k < |names| => names[k] + "=" + values[k]))
         == seq(|names|, k requires 0 <= k < |names| => (Unplus(names[k]), Unplus(values[k])))
    decreases |names|
  {
    var fields := seq(|names|, k requires 0 <= k < |names| => names[k] + "=" + values[k]);
    if |names| > 0 {
      QueryPairsOfFields(names[1..], values[1..]);
      assert fields[1..] == seq(|names| - 1, k requires 0 <= k < |names| - 1 => names[1..][k] + "=" + values[1..][k]);
      IndexOfAnyAfterFree(names[0], "=" + values[0], {'='});
      assert fields[0] == names[0] + ("=" + values[0]);
      assert fields[0][..|names[0]|] == names[0];
      assert fields[0][|names[0]| + 1..] == values[0];
    }
  }

  /** A query string of `name=value` fields with non-empty values gives the dictionary of those
      pairs (after `+` decoding), a later duplicate name overriding an earlier one; no field at
      all gives the empty dictionary. */
  lemma ParseQueryOfFields(names: seq<string>, values: seq<string>)
    requires |names| == |values|
    requires forall k :: 0 <= k < |names| ==> '=' !in names[k] && '&' !in names[k] && '&' !in values[k] && |values[k]| > 0
    ensures ParseQuery(Join(seq(|names|, k requires 0 <= k < |names| => names[k] + "=" + values[k]), "&"))
         == DictOf(seq(|names|, k requires 0 <= k < |names| => (Unplus(names[k]), Unplus(values[k]))))
  {
    var fields := seq(|names|, k requires 0 <= k < |names| => names[k] + "=" + values[k]);
    if |names| == 0 {
      // An empty query string is one blank field, which `parse_qsl` drops.
      assert Split("", "&") == [""];
      assert QueryPairs([""]) == [];
    } else {
      forall k | 0 <= k < |fields| ensures '&' !in fields[k] {
        assert fields[k] == names[k] + "=" + values[k];
      }
      SplitOfJoinFree(fields, '&');
      QueryPairsOfFields(names, values);
    }
  }

  /** Splitting at a character that none of the pieces contains gives the pieces back. */
  lemma {:induction false} SplitOfJoinFree(parts: seq<string>, c: char)
    requires |parts| > 0
    requires forall k :: 0 <= k < |parts| ==> c !in parts[k]
    ensures Split(Join(parts, [c]), [c]) == parts
    decreases |parts|
  {
    CharFreeNotContains(parts[0], c);
    assert Unbordered([c]);
    if |parts| == 1 {
      SplitOfCharFree(parts[0], c);
    } else {
      SplitOfJoinFree(parts[1..], c);
      SplitAtFirstSeparator(parts[0], [c], Join(parts[1..], [c]));
      assert parts == [parts[0]] + parts[1..];
    }
  }

  lemma {:induction false} SplitOfCharFree(s: string, c: char)
    requires c !in s
    ensures Split(s, [c]) == [s]
    decreases |s|
  {
    if |s| >= 1 {
      assert s[..1] != [c] by { assert s[..1][0] == s[0]; }
      SplitOfCharFree(s[1..], c);
      assert s == [s[0]] + s[1..];
    }
  }

  /** A host name the parser keeps as it is: non-empty, without upper-case letters, without
      any of the characters that end or subdivide the network location, and without the
      brackets of an IPv6 literal. */
  ghost predicate PlainHost(group: string)
  {
    |group| > 0 && forall k :: 0 <= k < |group| ==>
      group[k] !in {'/', '?', '#', '@', ':', '[', ']'} && !('A' <= group[k] <= 'Z')
  }

  /** An action the parser keeps as the path's tail: no `?` or `#`, no leading `/`. */
  ghost predicate PlainAction(action: string)
  {
    (|action| == 0 || action[0] != '/') &&
    forall k :: 0 <= k < |action| ==> action[k] !in {'?', '#'}
  }

  lemma LowerOfLower(s: string)
    requires forall k :: 0 <= k < |s| ==> !('A' <= s[k] <= 'Z')
    ensures Lower(s) == s
  {
  }

  lemma SchemeOfCommandLine(tail: string)
    ensures SplitScheme("heos://" + tail) == ("heos", "//" + tail)
  {
    var line := "heos://" + tail;
    IndexOfAnyAfterFree("heos", "://" + tail, {':'});
    assert line == "heos" + ("://" + tail);
    assert line[..4] == "heos";
    assert line[5..] == "//" + tail;
    assert forall k | 0 <= k < 4 :: IsSchemeChar(line[k]);
    LowerOfLower("heos");
  }

  lemma NetlocOfCommandLine(group: string, tail: string)
    requires PlainHost(group) && |tail| > 0 && tail[0] == '/'
    ensures SplitNetloc("//" + group + tail) == (group, tail)
  {
    var rest := ("//" + group + tail)[2..];
    assert rest == group + tail;
    IndexOfAnyAfterFree(group, tail, {'/', '?', '#'});
    assert rest[..|group|] == group;
    assert rest[|group|..] == tail;
  }

  lemma PathAndQueryOfCommandLine(action: string, qs: string)
    requires PlainAction(action)
    requires forall k :: 0 <= k < |qs| ==> qs[k] != '#'
    ensures var r := "/" + action + "?" + qs;
      var f := IndexOfAny(r, {'#'});
      var q := IndexOfAny(r[..f], {'?'});
      && f == |r|
      && r[..f][..q] == "/" + action
      && q < |r[..f]|
      && r[..f][q + 1..] == qs
  {
    var r := "/" + action + "?" + qs;
    assert forall k :: 0 <= k < |r| ==> r[k] != '#';
    assert IndexOfAny(r, {'#'}) == |r|;
    assert r[..|r|] == r;
    IndexOfAnyAfterFree("/" + action, "?" + qs, {'?'});
    assert r == ("/" + action) + ("?" + qs);
    assert r[..|action| + 1] == "/" + action;
    assert r[|action| + 2..] == qs;
  }

  lemma UrlOfCommandLine(group: string, action: string, qs: string)
    requires PlainHost(group) && PlainAction(action)
    requires forall k :: 0 <= k < |qs| ==> qs[k] != '#'
    ensures var url := ParseUrl("heos://" + group + "/" + action + "?" + qs);
      url.netloc == group && url.path == "/" + action && url.query == qs
  {
    var tail := "/" + action + "?" + qs;
    assert "heos://" + group + "/" + action + "?" + qs == "heos://" + (group + tail);
    SchemeOfCommandLine(group + tail);
    assert "//" + (group + tail) == "//" + group + tail;
    NetlocOfCommandLine(group, tail);
    PathAndQueryOfCommandLine(action, qs);
  }

  lemma HostnameOfPlainHost(group: string)
    requires PlainHost(group)
    ensures Hostname(group) == Some(group)
  {
    AfterLastAbsent(group, '@');
    IndexOfAnyAfterFree(group, "", {':'});
    assert group + "" == group;
    assert group[..|group|] == group;
    LowerOfLower(group);
  }

  lemma NamesOfCommandLine(group: string, action: string)
    requires |action| == 0 || action[0] != '/'
    ensures CommandOf(group, "/" + action) == group + "/" + action
    ensures FixtureNameOf(group, "/" + action) == group + "." + action
  {
    assert ("/" + action)[1..] == action;
  }

  /** Parsing the line a HEOS client sends, `heos://group/action?query`, gives the command
      `group/action`, the fixture name `group.action` and the dictionary of the query. */
  lemma ParseRequestOfCommandLine(group: string, action: string, qs: string)
    requires PlainHost(group) && PlainAction(action)
    requires forall k :: 0 <= k < |qs| ==> qs[k] != '#'
    ensures var line := "heos://" + group + "/" + action + "?" + qs;
      ParseRequest(line) == Some(Request(line, group + "/" + action, group + "." + action, ParseQuery(qs)))
  {
    var line := "heos://" + group + "/" + action + "?" + qs;
    var url := ParseUrl(line);
    UrlOfCommandLine(group, action, qs);
    HostnameOfPlainHost(group);
    NamesOfCommandLine(group, action);
  }

  /** `register_command` derives the command from a fixture name by `fixture.replace(".", "/")`;
      for a group and an action without dots this gives back the command whose fixture name the
      request loop derives. */
  lemma RegisterCommandNaming(group: string, action: string)
    requires '.' !in group && '.' !in action && (|action| == 0 || action[0] != '/')
    ensures Replace(FixtureNameOf(group, "/" + action), ".", "/") == CommandOf(group, "/" + action)
  {
    assert LStrip("/" + action, '/') == action by {
      assert ("/" + action)[1..] == action;
    }
    assert FixtureNameOf(group, "/" + action) == group + ("." + action);
    ReplaceCharConcat(group, "." + action, '.', "/");
    ReplaceCharConcat(".", action, '.', "/");
    ReplaceCharAbsent(group, '.', "/");
    ReplaceCharAbsent(action, '.', "/");
    assert Replace(".", ".", "/") == "/";
  }
}
