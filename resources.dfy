/** Resource kinds (kopf/structs/resources.py): their dotted names, their
    `apiVersion`, the URLs of their API endpoints, and resource globs. */
module Resources {
  import opened Wrappers

  /** `str.lstrip(c)`: `s` without its leading run of `c`. */
  function LStrip(s: string, c: char): (r: string)
    ensures |r| <= |s| && r == s[|s| - |r|..]
    ensures r == [] || r[0] != c
    ensures forall i :: 0 <= i < |s| - |r| ==> s[i] == c
    decreases |s|
  {
    if s != [] && s[0] == c then LStrip(s[1..], c) else s
  }

  /** `str.rstrip(c)`: `s` without its trailing run of `c`. */
  function RStrip(s: string, c: char): (r: string)
    ensures |r| <= |s| && r == s[..|r|]
    ensures r == [] || r[|r| - 1] != c
    ensures forall i :: |r| <= i < |s| ==> s[i] == c
    decreases |s|
  {
    if s != [] && s[|s| - 1] == c then RStrip(s[..|s| - 1], c) else s
  }

  /** `str.strip(c)`: `s` without its leading and trailing runs of `c`. */
  function Strip(s: string, c: char): string
  {
    RStrip(LStrip(s, c), c)
  }

  /** Stripping leaves a string that neither starts nor ends with `c` alone. */
  lemma StripUnchanged(s: string, c: char)
    requires s == [] || (s[0] != c && s[|s| - 1] != c)
    ensures Strip(s, c) == s
  {
  }

  /** `x + [c]` with `x` free of `c` at both ends strips back to `x`. */
  lemma StripTrailingSeparator(x: string, c: char)
    requires x != [] && x[0] != c && x[|x| - 1] != c
    ensures Strip(x + [c], c) == x
  {
    var s := x + [c];
    assert LStrip(s, c) == s;
    assert s[..|s| - 1] == x;
    assert RStrip(s, c) == RStrip(x, c);
  }

  /** An immutable reference to a resource kind. */
  datatype Resource = Resource(group: string, version: string, plural: string)
  {
    /** `f'{plural}.{group}'.strip('.')`. */
    function Name(): string
    {
      Strip(plural + "." + group, '.')
    }

    /** `f'{group}/{version}'.strip('/')`. */
    function ApiVersion(): string
    {
      Strip(group + "/" + version, '/')
    }

    /** The root segment: `/api` for the core `v1` group, `/apis` otherwise. */
    function ApiRoot(): (r: string)
      ensures r == "/api" <==> group == "" && version == "v1"
      ensures r == "/api" || r == "/apis"
    {
      if group == "" && version == "v1" then "/api" else "/apis"
    }

    /** `get_url`: the URL of the resource list or of one named object, or
        an error for a subresource without an object name. */
    function GetUrl(server: Option<string>, namespace: Option<string>, name: Option<string>,
                    subresource: Option<string>, query: string): (r: Result<string, UrlError>)
      ensures r.Failure? <==> subresource.Some? && name.None?
    {
      if subresource.Some? && name.None? then Failure(SubresourceWithoutName)
      else Success(BuildUrl(server, query, [
        Some(ApiRoot()),
        Some(group),
        Some(version),
        if namespace.Some? then Some("namespaces") else None,
        namespace,
        Some(plural),
        name,
        subresource
      ]))
    }

    /** `get_version_url`: the URL of the group-version itself. */
    function GetVersionUrl(server: Option<string>, query: string): string
    {
      BuildUrl(server, query, [Some(ApiRoot()), Some(group), Some(version)])
    }
  }

  datatype UrlError = SubresourceWithoutName

  /** `[part for part in parts if part]`: the parts that are neither `None` nor empty. */
  function Kept(parts: seq<Option<string>>): (r: seq<string>)
    ensures |r| <= |parts|
    ensures forall i :: 0 <= i < |r| ==> r[i] != ""
  {
    if parts == [] then []
    else
      var rest := Kept(parts[1..]);
      if parts[0].Some? && parts[0].value != "" then [parts[0].value] + rest else rest
  }

  /** Every kept part comes from the parts given. */
  lemma {:induction false} KeptFrom(parts: seq<Option<string>>, i: int)
    requires 0 <= i < |Kept(parts)|
    ensures Some(Kept(parts)[i]) in parts
  {
    var keep := parts[0].Some? && parts[0].value != "";
    if !(keep && i == 0) {
      KeptFrom(parts[1..], if keep then i - 1 else i);
    }
  }

  /** Keeping parts of a joined list keeps the parts of each piece, in order. */
  lemma {:induction false} KeptConcat(a: seq<Option<string>>, b: seq<Option<string>>)
    ensures Kept(a + b) == Kept(a) + Kept(b)
    decreases |a|
  {
    if a == [] {
      assert a + b == b;
    } else {
      assert (a + b)[0] == a[0];
      assert (a + b)[1..] == a[1..] + b;
      KeptConcat(a[1..], b);
    }
  }

  /** One part is kept exactly when it is present and non-empty. Together
      with `KeptConcat` this determines `Kept` on every list: the truthy
      parts, each once, in their order. */
  lemma KeptSingle(x: Option<string>)
    ensures Kept([x]) == if x.Some? && x.value != "" then [x.value] else []
  {
    assert [x][1..] == [];
  }

  /** Every present non-empty part is kept. */
  lemma KeptComplete(parts: seq<Option<string>>, i: int)
    requires 0 <= i < |parts| && parts[i].Some? && parts[i].value != ""
    ensures parts[i].value in Kept(parts)
  {
    assert parts == parts[..i] + [parts[i]] + parts[i + 1..];
    KeptConcat(parts[..i] + [parts[i]], parts[i + 1..]);
    KeptConcat(parts[..i], [parts[i]]);
    KeptSingle(parts[i]);
  }

  lemma KeptCons(x: Option<string>, rest: seq<Option<string>>)
    ensures Kept([x] + rest) == (if x.Some? && x.value != "" then [x.value] else []) + Kept(rest)
  {
    assert ([x] + rest)[1..] == rest;
  }

  /** `'/'.join(parts)`. */
  function Join(parts: seq<string>): (r: string)
    ensures parts != [] ==> parts[0] <= r
  {
    if parts == [] then ""
    else if |parts| == 1 then parts[0]
    else parts[0] + "/" + Join(parts[1..])
  }

  /** A joined string holds only the parts' characters and separators. */
  lemma {:induction false} JoinChars(parts: seq<string>, ch: char)
    requires forall i :: 0 <= i < |parts| ==> ch !in parts[i]
    requires ch != '/'
    ensures ch !in Join(parts)
  {
    if |parts| > 1 {
      JoinChars(parts[1..], ch);
    }
  }

  /** `_build_url`: joins the kept parts with `/`, appends `?query` only for a
      non-empty query, and puts a server in front with one slash between.
      The query stands for the already encoded parameters: `''` when there are none. */
  function BuildUrl(server: Option<string>, query: string, parts: seq<Option<string>>): (r: string)
  {
    var path := Join(Kept(parts));
    var url := path + (if query != "" then "?" else "") + query;
    if server.None? then url else RStrip(server.value, '/') + "/" + LStrip(url, '/')
  }

  /** The name is `plural.group`; the dot goes away for the core group. */
  lemma NameOf(r: Resource)
    requires r.plural != "" && r.plural[0] != '.' && r.plural[|r.plural| - 1] != '.'
    requires r.group != "" ==> r.group[0] != '.' && r.group[|r.group| - 1] != '.'
    ensures r.Name() == if r.group == "" then r.plural else r.plural + "." + r.group
  {
    if r.group == "" {
      assert r.plural + "." + r.group == r.plural + ".";
      StripTrailingSeparator(r.plural, '.');
    } else {
      StripUnchanged(r.plural + "." + r.group, '.');
    }
  }

  /** The API version is `group/version`, or just `version` for the core group. */
  lemma ApiVersionOf(r: Resource)
    requires r.version != "" && r.version[0] != '/' && r.version[|r.version| - 1] != '/'
    requires r.group != "" ==> r.group[0] != '/' && r.group[|r.group| - 1] != '/'
    ensures r.ApiVersion() == if r.group == "" then r.version else r.group + "/" + r.version
  {
    var s := r.group + "/" + r.version;
    if r.group == "" {
      assert s == "/" + r.version;
      assert LStrip(s, '/') == LStrip(r.version, '/');
      StripUnchanged(r.version, '/');
    } else {
      StripUnchanged(s, '/');
    }
  }

  /** Every URL without a server starts with the root segment of its group. */
  lemma {:induction false} UrlStartsWithRoot(r: Resource, namespace: Option<string>, name: Option<string>,
                                             subresource: Option<string>, query: string)
    requires !(subresource.Some? && name.None?)
    ensures r.GetUrl(None, namespace, name, subresource, query).Success?
    ensures r.ApiRoot() <= r.GetUrl(None, namespace, name, subresource, query).value
  {
    var parts := [Some(r.ApiRoot()), Some(r.group), Some(r.version),
                  if namespace.Some? then Some("namespaces") else None,
                  namespace, Some(r.plural), name, subresource];
    assert parts[0] == Some(r.ApiRoot());
    var kept := Kept(parts);
    assert kept == [r.ApiRoot()] + Kept(parts[1..]);
    var url := Join(kept) + (if query != "" then "?" else "") + query;
    assert r.ApiRoot() <= Join(kept);
    assert r.GetUrl(None, namespace, name, subresource, query).value == url;
  }

  /** `'/'.join` of two non-empty lists joins their joins with one slash. */
  lemma {:induction false} JoinConcat(a: seq<string>, b: seq<string>)
    requires a != [] && b != []
    ensures Join(a + b) == Join(a) + "/" + Join(b)
    decreases |a|
  {
    if |a| == 1 {
      assert (a + b)[1..] == b;
    } else {
      assert (a + b)[1..] == a[1..] + b;
      JoinConcat(a[1..], b);
    }
  }

  /** The version URL without a server or query: `/api/v1` for the core
      group, `/apis/{version}` for another version of the core group, and
      `/apis/{group}/{version}` for a named group. */
  lemma VersionUrlShape(r: Resource)
    requires r.version != ""
    ensures r.GetVersionUrl(None, "") ==
      if r.group == "" && r.version == "v1" then "/api/v1"
      else if r.group == "" then "/apis/" + r.version
      else "/apis/" + r.group + "/" + r.version
  {
    var parts := [Some(r.ApiRoot()), Some(r.group), Some(r.version)];
    var kept := Kept(parts);
    VersionKept(r.ApiRoot(), r.group, r.version);
    assert r.GetVersionUrl(None, "") == Join(kept) + "" + "";
    assert Join(kept) + "" + "" == Join(kept);
    if r.group == "" {
      assert Join(kept) == r.ApiRoot() + "/" + Join([r.version]);
    } else {
      assert Join(kept) == r.ApiRoot() + "/" + Join([r.group, r.version]);
      assert Join([r.group, r.version]) == r.group + "/" + Join([r.version]);
    }
  }

  /** The parts kept for a version URL: the empty core group drops out. */
  lemma VersionKept(root: string, group: string, version: string)
    requires root != "" && version != ""
    ensures Kept([Some(root), Some(group), Some(version)]) ==
      if group == "" then [root, version] else [root, group, version]
  {
    var rest := [Some(group), Some(version)];
    assert [Some(root), Some(group), Some(version)] == [Some(root)] + rest;
    assert rest == [Some(group)] + [Some(version)];
    KeptConcat([Some(root)], rest);
    KeptConcat([Some(group)], [Some(version)]);
    KeptSingle(Some(root));
    KeptSingle(Some(group));
    KeptSingle(Some(version));
  }

  /** Every object URL without a server or query extends the version URL of
      its resource by a slash and the remaining path. */
  lemma VersionUrlPrefixesUrl(r: Resource, namespace: Option<string>, name: Option<string>,
                              subresource: Option<string>)
    requires !(subresource.Some? && name.None?)
    requires r.plural != ""
    ensures r.GetVersionUrl(None, "") + "/" <= r.GetUrl(None, namespace, name, subresource, "").value
  {
    var head := [Some(r.ApiRoot()), Some(r.group), Some(r.version)];
    var tail := [if namespace.Some? then Some("namespaces") else None,
                 namespace, Some(r.plural), name, subresource];
    UrlSplitsAtVersion(r, namespace, name, subresource, head, tail);
    KeptConcat(head, tail);
    KeptComplete(head, 0);
    KeptComplete(tail, 2);
    JoinConcat(Kept(head), Kept(tail));
  }

  /** The URL's parts are the version URL's parts followed by the rest. */
  lemma UrlSplitsAtVersion(r: Resource, namespace: Option<string>, name: Option<string>,
                           subresource: Option<string>, head: seq<Option<string>>, tail: seq<Option<string>>)
    requires !(subresource.Some? && name.None?)
    requires head == [Some(r.ApiRoot()), Some(r.group), Some(r.version)]
    requires tail == [if namespace.Some? then Some("namespaces") else None,
                      namespace, Some(r.plural), name, subresource]
    ensures r.GetVersionUrl(None, "") == Join(Kept(head))
    ensures r.GetUrl(None, namespace, name, subresource, "").value == Join(Kept(head + tail))
  {
    assert head + tail == [Some(r.ApiRoot()), Some(r.group), Some(r.version),
                           if namespace.Some? then Some("namespaces") else None,
                           namespace, Some(r.plural), name, subresource];
    assert Join(Kept(head)) + "" + "" == Join(Kept(head));
    assert Join(Kept(head + tail)) + "" + "" == Join(Kept(head + tail));
  }

  /** A `?` appears in the URL exactly when there is a query, as long as no
      part contains one itself. */
  lemma QuestionMarkOnlyWithQuery(query: string, parts: seq<Option<string>>)
    requires forall i :: 0 <= i < |parts| && parts[i].Some? ==> '?' !in parts[i].value
    ensures '?' in BuildUrl(None, query, parts) <==> query != ""
  {
    var kept := Kept(parts);
    var path := Join(kept);
    forall i | 0 <= i < |kept| ensures '?' !in kept[i] {
      KeptFrom(parts, i);
      var j :| 0 <= j < |parts| && parts[j] == Some(kept[i]);
    }
    JoinChars(kept, '?');
    if query != "" {
      assert (path + "?" + query)[|path|] == '?';
    } else {
      assert BuildUrl(None, query, parts) == path;
    }
  }

  /** With a server, exactly one slash joins the server and the path. */
  lemma ServerJoin(server: string, query: string, parts: seq<Option<string>>)
    ensures var url := Join(Kept(parts)) + (if query != "" then "?" else "") + query;
            var head, tail := RStrip(server, '/'), LStrip(url, '/');
            && BuildUrl(Some(server), query, parts) == head + "/" + tail
            && (head == [] || head[|head| - 1] != '/')
            && (tail == [] || tail[0] != '/')
            && server == head + server[|head|..] && url == url[..|url| - |tail|] + tail
  {
    var url := Join(Kept(parts)) + (if query != "" then "?" else "") + query;
    var head, tail := RStrip(server, '/'), LStrip(url, '/');
    assert BuildUrl(Some(server), query, parts) == head + "/" + tail;
    SplitAt(server, |head|);
    SplitAt(url, |url| - |tail|);
  }

  lemma SplitAt(s: string, n: nat)
    requires n <= |s|
    ensures s == s[..n] + s[n..]
  {
  }

  /** The URL of a named object of the core group in a namespace: the parts
      in order, each once, with the empty group dropped. */
  lemma CoreObjectUrl(r: Resource, namespace: string, name: string)
    requires r.group == "" && r.version == "v1"
    requires namespace != "" && name != "" && r.plural != ""
    ensures r.GetUrl(None, Some(namespace), Some(name), None, "")
         == Success(Join(["/api", "v1", "namespaces", namespace, r.plural, name]))
  {
    var parts := [Some("/api"), Some(""), Some("v1"), Some("namespaces"),
                  Some(namespace), Some(r.plural), Some(name), None];
    CoreObjectKept(namespace, r.plural, name);
    var path := Join(Kept(parts));
    assert path + "" + "" == path;
    assert BuildUrl(None, "", parts) == path;
    assert r.ApiRoot() == "/api";
    assert r.GetUrl(None, Some(namespace), Some(name), None, "") == Success(BuildUrl(None, "", parts));
  }

  /** The parts kept for a named core object in a namespace. */
  lemma CoreObjectKept(namespace: string, plural: string, name: string)
    requires namespace != "" && name != "" && plural != ""
    ensures Kept([Some("/api"), Some(""), Some("v1"), Some("namespaces"),
                  Some(namespace), Some(plural), Some(name), None])
         == ["/api", "v1", "namespaces", namespace, plural, name]
  {
    var head := [Some("/api"), Some(""), Some("v1")];
    var p3: seq<Option<string>> := [Some(name), None];
    KeptCons(None, []);
    KeptCons(Some(name), [None]);
    var p2 := [Some(plural)] + p3;
    KeptCons(Some(plural), p3);
    var p1 := [Some(namespace)] + p2;
    KeptCons(Some(namespace), p2);
    var tail := [Some("namespaces")] + p1;
    KeptCons(Some("namespaces"), p1);
    assert Kept(tail) == ["namespaces", namespace, plural, name];
    VersionKept("/api", "", "v1");
    KeptConcat(head, tail);
    assert head + tail == [Some("/api"), Some(""), Some("v1"), Some("namespaces"),
                           Some(namespace), Some(plural), Some(name), None];
  }

  /** A pre-parsed glob over resources; `*` in a component matches anything. */
  datatype ResourceGlob = ResourceGlob(group: string, version: string, plural: string)
  {
    /** `check`: each component is `*` or equal to the resource's. */
    predicate Check(resource: Resource)
    {
      && (group == "*" || group == resource.group)
      && (version == "*" || version == resource.version)
      && (plural == "*" || plural == resource.plural)
    }
  }

  /** The all-wildcard glob matches every resource. */
  lemma WildcardGlobMatchesAll(resource: Resource)
    ensures ResourceGlob("*", "*", "*").Check(resource)
  {
  }

  /** A glob without wildcards matches exactly the resource it spells out. */
  lemma LiteralGlobMatchesOnlyItself(glob: ResourceGlob, resource: Resource)
    requires glob.group != "*" && glob.version != "*" && glob.plural != "*"
    ensures glob.Check(resource) <==> resource == Resource(glob.group, glob.version, glob.plural)
  {
  }
}
