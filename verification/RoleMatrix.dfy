/** Role capability matrix: wildcard patterns over arbitrary tool ids. */
module RoleMatrix {
  import opened Wrappers

  // ----------------------------------------------------------------- wildcard matching

  /** `fnmatch` on patterns whose only special character is the star. */
  predicate Match(text: string, pattern: string)
    decreases |text| + |pattern|
  {
    if pattern == [] then text == []
    else if pattern[0] == '*' then Match(text, pattern[1..]) || (text != [] && Match(text[1..], pattern))
    else text != [] && text[0] == pattern[0] && Match(text[1..], pattern[1..])
  }

  predicate StarFree(pattern: string) { '*' !in pattern }

  lemma {:induction false} LiteralMatchesItself(text: string, pattern: string)
    requires StarFree(pattern)
    ensures Match(text, pattern) <==> text == pattern
  {
    if pattern != [] {
      assert pattern == [pattern[0]] + pattern[1..];
      if text != [] {
        assert text == [text[0]] + text[1..];
        LiteralMatchesItself(text[1..], pattern[1..]);
      }
    }
  }

  /** A star takes any part of the text: all ways to split are tried. */
  lemma {:induction false} StarTakesAnyPart(text: string, rest: string)
    ensures Match(text, "*" + rest) <==> exists k :: 0 <= k <= |text| && Match(text[k..], rest)
  {
    assert ("*" + rest)[1..] == rest;
    assert text[0..] == text;
    if text != [] {
      StarTakesAnyPart(text[1..], rest);
      forall k | 1 <= k <= |text| ensures text[k..] == text[1..][k - 1..] {}
      if k :| 0 <= k <= |text[1..]| && Match(text[1..][k..], rest) {
        assert text[k + 1..] == text[1..][k..];
      }
    }
  }

  lemma {:induction false} PrefixThenStar(text: string, prefix: string)
    requires StarFree(prefix)
    ensures Match(text, prefix + "*") <==> prefix <= text
  {
    var pattern := prefix + "*";
    if prefix == [] {
      StarTakesAnyPart(text, []);
      assert pattern == "*" + [] && text[|text|..] == [];
    } else {
      assert pattern[1..] == prefix[1..] + "*";
      assert prefix == [prefix[0]] + prefix[1..];
      if text != [] {
        assert text == [text[0]] + text[1..];
        PrefixThenStar(text[1..], prefix[1..]);
      }
    }
  }

  lemma {:induction false} MatchSelf(pattern: string)
    ensures Match(pattern, pattern)
  {
    if pattern != [] {
      MatchSelf(pattern[1..]);
    }
  }

  /** A pattern that another pattern matches, read as a text, matches nothing more than it. */
  lemma {:induction false} MatchTransitive(text: string, inner: string, outer: string)
    requires Match(text, inner) && Match(inner, outer)
    ensures Match(text, outer)
    decreases |text| + |inner| + |outer|
  {
    if outer != [] && inner != [] {
      if outer[0] != '*' {
        MatchTransitive(text[1..], inner[1..], outer[1..]);
      } else if Match(inner, outer[1..]) {
        MatchTransitive(text, inner, outer[1..]);
      } else if inner[0] == '*' && !Match(text, inner[1..]) {
        MatchTransitive(text[1..], inner, outer);
      } else if inner[0] == '*' {
        MatchTransitive(text, inner[1..], outer);
      } else {
        MatchTransitive(text[1..], inner[1..], outer);
      }
    }
  }

  // ------------------------------------------------------------------------ the tables

  const ADMIN_TOOLS: set<string> := {
    "*"
  }
  const USER_READ: set<string> := {
    "system.*", "filesystem.read", "filesystem.list", "filesystem.search", "ai.*", "audit.*",
    "profile.*", "agent.*", "fleet.status", "fleet.list_devices", "fleet.qr", "fleet.export_sync",
    "fleet.sync_log", "plugins.list", "plugins.templates", "permissions.status"
  }
  const USER_WRITE: set<string> := {
    "filesystem.write", "profile.*", "ai.config", "fleet.register_device", "fleet.update_device",
    "fleet.sync_push", "fleet.sync_pull", "fleet.receive_sync"
  }
  const USER_DANGEROUS: set<string> := {
    "executor.command", "executor.launch", "executor.kill", "executor.restart", "filesystem.delete"
  }
  const VIEWER_TOOLS: set<string> := {
    "system.*", "filesystem.read", "filesystem.list", "filesystem.search", "ai.chat", "ai.analyze",
    "audit.*", "profile.read", "fleet.status", "fleet.list_devices", "fleet.qr", "fleet.export_sync",
    "fleet.sync_log", "plugins.list", "plugins.templates", "permissions.status"
  }
  const VIEWER_WRITE: set<string> := {}
  const VIEWER_DANGEROUS: set<string> := {}
  const CRITICAL_TOOLS: set<string> := {
    "permissions.set_level", "permissions.emergency", "permissions.confirm", "permissions.blocklist",
    "permissions.remove_blocklist", "fleet.generate_pairing", "fleet.revoke_pairing",
    "fleet.toggle_remote", "fleet.delete_device", "plugins.load", "plugins.unload", "plugins.reload",
    "plugins.toggle", "plugins.create", "plugins.install_url", "plugins.install_zip", "vault.*",
    "policies.reload", "admin.config_set", "admin.config_delete", "admin.backup",
    "permissions.add_rule", "permissions.remove_rule", "goals.register", "goals.unregister",
    "goals.update", "budget.*", "cache.*", "rate_limiter.*", "fallback.*", "circuit_breaker.*",
    "offline_queue.*", "alert.*", "advisory.*", "kb.add_file", "kb.clear", "kb.rebuild",
    "pipeline.reset_stats", "profile.import", "simulate.*", "process.offline", "skill.suggest",
    "skill.execute"
  }

  datatype Capabilities = Capabilities(read: set<string>, write: set<string>, dangerous: set<string>)

  const MATRIX: map<string, Capabilities> := map[
    "admin" := Capabilities(ADMIN_TOOLS, ADMIN_TOOLS, ADMIN_TOOLS),
    "user" := Capabilities(USER_READ, USER_WRITE, USER_DANGEROUS),
    "viewer" := Capabilities(VIEWER_TOOLS, VIEWER_WRITE, VIEWER_DANGEROUS)
  ]

  // ------------------------------------------------------------------------ the policy

  predicate AnyMatch(tool: string, patterns: set<string>) { exists p :: p in patterns && Match(tool, p) }

  function Patterns(c: Capabilities): set<string> { c.dangerous + c.write + c.read }

  predicate Allowed(role: string, tool: string)
  {
    if role !in MATRIX then false
    else if role == "admin" then true
    else
      var c := MATRIX[role];
      AnyMatch(tool, c.dangerous) || AnyMatch(tool, c.write) || AnyMatch(tool, c.read)
  }

  predicate RequiresAdmin(tool: string) { AnyMatch(tool, CRITICAL_TOOLS) }

  datatype Verdict = AdminRequired | NotInMatrix | Allow

  /** `identity` is absent when the context has none; a role of its own is optional too. */
  function Evaluate(tool: string, identity: Option<Option<string>>): Verdict
  {
    var role := match identity case Some(Some(role)) => role case _ => "viewer";
    if RequiresAdmin(tool) && role != "admin" then AdminRequired
    else if !Allowed(role, tool) then NotInMatrix
    else Allow
  }

  predicate Permits(role: string, tool: string) { Evaluate(tool, Some(Some(role))).Allow? }

  // ------------------------------------------------------------------------- inclusion

  predicate Covered(inner: set<string>, outer: set<string>) { forall p :: p in inner ==> AnyMatch(p, outer) }

  ghost predicate Included(inner: set<string>, outer: set<string>)
  {
    forall tool :: AnyMatch(tool, inner) ==> AnyMatch(tool, outer)
  }

  /** One table admits every tool of another exactly when it matches the other's patterns
      read as texts: a question about all strings settled by looking at the tables. */
  lemma InclusionIff(inner: set<string>, outer: set<string>)
    ensures Included(inner, outer) <==> Covered(inner, outer)
  {
    if Included(inner, outer) {
      forall p | p in inner ensures AnyMatch(p, outer) {
        MatchSelf(p);
        assert AnyMatch(p, inner);
      }
    }
    if Covered(inner, outer) {
      forall tool | AnyMatch(tool, inner) ensures AnyMatch(tool, outer) {
        var p :| p in inner && Match(tool, p);
        var q :| q in outer && Match(p, q);
        MatchTransitive(tool, p, q);
      }
    }
  }

  lemma ViewerIsCovered()
    ensures Covered(Patterns(MATRIX["viewer"]), Patterns(MATRIX["user"]))
  {
    var outer := Patterns(MATRIX["user"]);
    assert "ai.*" == "ai." + "*" && "profile.*" == "profile." + "*";
    assert "ai.*" in outer && "profile.*" in outer;
    PrefixThenStar("ai.chat", "ai.");
    PrefixThenStar("ai.analyze", "ai.");
    PrefixThenStar("profile.read", "profile.");
    forall p | p in Patterns(MATRIX["viewer"]) ensures AnyMatch(p, outer) {
      MatchSelf(p);
    }
  }

  lemma AllowedIff(role: string, tool: string)
    requires role == "user" || role == "viewer"
    ensures Allowed(role, tool) <==> AnyMatch(tool, Patterns(MATRIX[role]))
  {
  }

  /** What a viewer may use a user may use, and what a user may use an admin may use. */
  lemma RolesAreMonotone(tool: string)
    ensures Allowed("viewer", tool) ==> Allowed("user", tool)
    ensures Allowed("user", tool) ==> Allowed("admin", tool)
    ensures Permits("viewer", tool) ==> Permits("user", tool)
    ensures Permits("user", tool) ==> Permits("admin", tool)
  {
    ViewerIsCovered();
    InclusionIff(Patterns(MATRIX["viewer"]), Patterns(MATRIX["user"]));
    AllowedIff("viewer", tool);
    AllowedIff("user", tool);
  }

  lemma KnownRoles(role: string)
    ensures role in MATRIX <==> role == "admin" || role == "user" || role == "viewer"
  {
  }

  /** Who may use what: admins everything, users and viewers the uncritical tools of their
      tables, any other role nothing. */
  lemma PermitsIff(role: string, tool: string)
    ensures Permits(role, tool) <==>
              role == "admin"
              || ((role == "user" || role == "viewer") && AnyMatch(tool, Patterns(MATRIX[role])) && !RequiresAdmin(tool))
  {
    KnownRoles(role);
    if role == "user" || role == "viewer" { AllowedIff(role, tool); }
  }

  lemma ImportIsCritical()
    ensures RequiresAdmin("profile.import")
  {
    MatchSelf("profile.import");
    assert "profile.import" in CRITICAL_TOOLS;
  }

  lemma UsersMayImport()
    ensures Allowed("user", "profile.import")
  {
    assert "profile.*" == "profile." + "*";
    PrefixThenStar("profile.import", "profile.");
    assert "profile.*" in USER_WRITE;
    assert AnyMatch("profile.import", USER_WRITE);
  }

  /** The critical list is not redundant: it takes away a tool that the user's table grants. */
  lemma CriticalListMatters()
    ensures exists tool :: Allowed("user", tool) && !Permits("user", tool) && Permits("admin", tool)
  {
    ImportIsCritical();
    UsersMayImport();
    var tool := "profile.import";
    assert Allowed("user", tool) && !Permits("user", tool) && Permits("admin", tool);
  }
}
