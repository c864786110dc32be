/** The text of ~/.ssh/config as kr/sshconfig.go installs, migrates and removes its block. */
module SshConfig {
  import opened TextReplace

  const MARK: Text := " Added by Krypton\nHost *\n\t"
  const HEAD: Text := "#" + MARK
  const PROXY: Text := "\n\tProxyCommand "
  const FILE: Text := "\n\tIdentityFile ~/.ssh/id_"
  const IDENTITIES: Text := FILE + "krypton" + FILE + "ed25519" + FILE + "rsa" + FILE + "ecdsa" + FILE + "dsa"
  const TAIL: Text := "/bin/krssh %h %p" + IDENTITIES

  const AGENT: Text := "IdentityAgent ~/.kr/krd-agent.sock"
  const KRSSH: Text := "krssh %h %p"
  const GAP: Text := "\n\n"

  const PKCS: Text := "PKCS11Provider"
  const LIB: Text := "/lib/kr-pkcs11.so"

  function Provider(prefix: Text): Text {
    PKCS + " " + prefix + LIB
  }

  /** The part that both blocks share. */
  function Rest(prefix: Text): Text {
    PROXY + prefix + TAIL
  }

  function NewBlock(prefix: Text): Text {
    HEAD + AGENT + Rest(prefix)
  }

  function OldBlock(prefix: Text): Text {
    HEAD + Provider(prefix) + Rest(prefix)
  }

  /** getKrSSHConfigBlockOrFatal */
  function Block(prefix: Text, supportsAgent: bool): Text {
    if supportsAgent then NewBlock(prefix) else OldBlock(prefix)
  }

  /** editSSHConfig; without a prompt the change counts as confirmed. */
  function Edit(config: Text, block: Text, force: bool, confirmed: bool): Text {
    if Contains(config, block) then config
    else if Contains(config, KRSSH) && !force then config
    else if !confirmed then config
    else config + GAP + block
  }

  /** cleanSSHConfig */
  function Clean(config: Text, block: Text): Text
    requires block != []
  {
    ReplaceAll(config, block, [])
  }

  /** migrateSSHConfig, when the local ssh supports an identity agent */
  function Migrate(config: Text, prefix: Text): Text {
    if Contains(config, Provider(prefix)) then ReplaceAll(config, Provider(prefix), AGENT) else config
  }

  // ---------- editing ----------

  /** Editing twice is editing once; and once an edit put the block in, no later edit does anything, whatever its answers. */
  lemma EditIsIdempotent(config: Text, block: Text, force: bool, confirmed: bool, force': bool, confirmed': bool)
    ensures var edited := Edit(config, block, force, confirmed);
            && Edit(edited, block, force, confirmed) == edited
            && (edited != config || (force && confirmed) ==> Contains(edited, block))
            && (Contains(edited, block) ==> Edit(edited, block, force', confirmed') == edited)
  {
    var edited := config + GAP + block;
    assert At(edited, |config + GAP|, block);
  }

  lemma TailMentionsKrssh()
    ensures Contains(TAIL, KRSSH)
  {
    var rest := KRSSH + IDENTITIES;
    assert At(rest, 0, KRSSH);
    var bin: Text := "/bin/";
    assert "/bin/krssh %h %p" == bin + KRSSH;
    assert TAIL == bin + rest;
    ContainsBehind(bin, rest, KRSSH);
  }

  lemma BlockMentionsKrssh(prefix: Text, supportsAgent: bool)
    ensures Contains(Block(prefix, supportsAgent), KRSSH)
  {
    TailMentionsKrssh();
    ContainsBehind(PROXY + prefix, TAIL, KRSSH);
    ContainsBehind(HEAD + (if supportsAgent then AGENT else Provider(prefix)), Rest(prefix), KRSSH);
  }

  lemma ContainsBehind(a: Text, b: Text, pat: Text)
    requires Contains(b, pat)
    ensures Contains(a + b, pat)
  {
    var i :| 0 <= i <= |b| && At(b, i, pat);
    assert (a + b)[|a| + i..|a| + i + |pat|] == b[i..i + |pat|];
    assert At(a + b, |a| + i, pat);
  }

  lemma ContainsInFront(a: Text, b: Text, pat: Text)
    requires Contains(a, pat)
    ensures Contains(a + b, pat)
  {
    var i :| 0 <= i <= |a| && At(a, i, pat);
    assert (a + b)[i..i + |pat|] == a[i..i + |pat|];
    assert At(a + b, i, pat);
  }

  lemma {:induction false} ContainsTransitive(a: Text, b: Text, pat: Text)
    requires Contains(a, b) && Contains(b, pat)
    ensures Contains(a, pat)
  {
    var i :| 0 <= i <= |a| && At(a, i, b);
    var front, behind := a[..i], a[i + |b|..];
    assert a == front + (b + behind);
    ContainsInFront(b, behind, pat);
    ContainsBehind(front, b + behind, pat);
  }

  /**
   What an edit does: confirmed, it leaves a config that begins with the old one and mentions
   krssh, and one without any such line, or any if forced, then holds the block; a config that
   has such a line is left alone unless forced, and any config is if not confirmed.
   */
  lemma EditInstalls(config: Text, prefix: Text, supportsAgent: bool, force: bool, confirmed: bool)
    ensures var block := Block(prefix, supportsAgent);
            var edited := Edit(config, block, force, confirmed);
            && config <= edited
            && (!confirmed ==> edited == config)
            && (confirmed ==> Contains(edited, KRSSH))
            && (confirmed && (force || !Contains(config, KRSSH)) ==> Contains(edited, block))
            && (Contains(config, KRSSH) && !force ==> edited == config)
            && (edited != config ==> edited == config + GAP + block)
  {
    BlockMentionsKrssh(prefix, supportsAgent);
    EditInstallsBlock(config, Block(prefix, supportsAgent), force, confirmed);
  }

  lemma EditInstallsBlock(config: Text, block: Text, force: bool, confirmed: bool)
    requires Contains(block, KRSSH)
    ensures var edited := Edit(config, block, force, confirmed);
            && config <= edited
            && (!confirmed ==> edited == config)
            && (confirmed ==> Contains(edited, KRSSH))
            && (confirmed && (force || !Contains(config, KRSSH)) ==> Contains(edited, block))
            && (Contains(config, KRSSH) && !force ==> edited == config)
            && (edited != config ==> edited == config + GAP + block)
  {
    var longer := config + GAP + block;
    ContainsBehind(config + GAP, block, KRSSH);
    assert At(longer, |config + GAP|, block);
    if Contains(config, block) { ContainsTransitive(config, block, KRSSH); }
  }

  /** Which block is installed depends on whether the local ssh knows identity agents. */
  lemma BlockNamesKeySource(prefix: Text)
    ensures Contains(Block(prefix, true), AGENT) && Contains(Block(prefix, false), Provider(prefix))
    ensures Block(prefix, true) == NewBlock(prefix) && Block(prefix, false) == OldBlock(prefix)
  {
    assert At(HEAD + AGENT + Rest(prefix), |HEAD|, AGENT);
    assert At(HEAD + Provider(prefix) + Rest(prefix), |HEAD|, Provider(prefix));
  }

  // ---------- cleaning ----------

  predicate HashFree(s: Text) {
    '#' !in s
  }

  lemma FileFacts()
    ensures '#' !in FILE && 'P' !in FILE && FILE[0] == '\n'
  {
  }

  lemma IdentitiesFacts()
    ensures '#' !in IDENTITIES && 'P' !in IDENTITIES && |IDENTITIES| > 3
    ensures IDENTITIES[0] == '\n' && IDENTITIES[|IDENTITIES| - 1] == 'a'
  {
    FileFacts();
    var front := FILE + "krypton" + FILE + "ed25519" + FILE + "rsa" + FILE + "ecdsa" + FILE;
    assert IDENTITIES == front + "dsa";
    assert '#' !in front && 'P' !in front && front[0] == '\n';
  }

  lemma TailFacts()
    ensures '#' !in TAIL && 'P' !in TAIL && TAIL[0] == '/' && TAIL[|TAIL| - 1] == 'a'
  {
    IdentitiesFacts();
  }

  lemma MarkFacts()
    ensures MARK[0] == ' ' && MARK[|MARK| - 1] == '\t' && '#' !in MARK && 'P' !in MARK
  {
  }

  lemma HeadFacts()
    ensures |HEAD| > 2 && HEAD[0] == '#' && HEAD[1] == ' ' && HEAD[|HEAD| - 1] == '\t'
    ensures '#' !in HEAD[1..] && 'P' !in HEAD
  {
    MarkFacts();
    assert HEAD[1..] == MARK;
  }

  lemma ProxyFacts()
    ensures |PROXY| == 15 && PROXY[0] == '\n' && PROXY[3] == 'r' && '#' !in PROXY
    ensures forall i :: 0 <= i < |PROXY| && i != 2 ==> PROXY[i] != 'P'
  {
  }

  lemma ShapeOf(h: Text, m: Text, r: Text)
    requires h != [] && h[0] == '#' && HashFree(h[1..]) && HashFree(m) && HashFree(r) && r != []
    ensures var b := h + m + r;
            b[0] == '#' && HashFree(b[1..]) && b[|b| - 1] == r[|r| - 1]
  {
    assert (h + m + r)[1..] == h[1..] + m + r;
  }

  lemma MiddleFacts(prefix: Text)
    requires HashFree(prefix)
    ensures HashFree(AGENT) && HashFree(Provider(prefix))
  {
    assert HashFree(PKCS) && HashFree(LIB);
  }

  lemma RestFacts(prefix: Text)
    requires HashFree(prefix)
    ensures HashFree(Rest(prefix)) && Rest(prefix) != [] && Rest(prefix)[|Rest(prefix)| - 1] == 'a'
  {
    ProxyFacts();
    TailFacts();
  }

  /** In a block only the first character is a hash, and the last is not a newline. */
  lemma BlockShape(prefix: Text, supportsAgent: bool)
    requires HashFree(prefix)
    ensures var b := Block(prefix, supportsAgent);
            b != [] && b[0] == '#' && HashFree(b[1..]) && b[|b| - 1] == 'a'
  {
    HeadFacts();
    MiddleFacts(prefix);
    RestFacts(prefix);
    ShapeOf(HEAD, if supportsAgent then AGENT else Provider(prefix), Rest(prefix));
  }

  lemma AppendedBlockIsCut(a: Text, b: Text)
    requires b != [] && b[0] == '#' && HashFree(b[1..])
    ensures CleanCut(a, b, b)
  {
    forall i | 0 <= i < |a| < i + |b| ensures !At(a + b, i, b) {
      var d := |a| - i;
      assert (a + b)[i + d] == '#' && b[1..][d - 1] == b[d];
      Differs(a + b, i, b, d);
    }
  }

  lemma GapAddsNoBlock(config: Text, b: Text)
    requires !Contains(config, b) && b != [] && b[|b| - 1] != '\n'
    ensures !Contains(config + GAP, b)
  {
    var s := config + GAP;
    forall i | 0 <= i <= |s| ensures !At(s, i, b) {
      if |config| < i + |b| <= |s| {
        assert s[i + |b| - 1] == '\n';
        Differs(s, i, b, |b| - 1);
      } else if i + |b| <= |config| {
        assert !At(config, i, b) && config[i..i + |b|] == s[i..i + |b|];
      }
    }
  }

  /**
   Cleaning an edited config that held no block before gives back the original, followed by
   the two newlines if the edit took place; for every prefix without a hash and both blocks.
   */
  lemma CleanUndoesEdit(config: Text, prefix: Text, supportsAgent: bool, force: bool, confirmed: bool)
    requires HashFree(prefix) && !Contains(config, Block(prefix, supportsAgent))
    ensures var b := Block(prefix, supportsAgent);
            var edited := Edit(config, b, force, confirmed);
            && b != []
            && Clean(edited, b) == if edited == config then config else config + GAP
  {
    var b := Block(prefix, supportsAgent);
    BlockShape(prefix, supportsAgent);
    ReplaceNothing(config, b, []);
    GapAddsNoBlock(config, b);
    ReplaceNothing(config + GAP, b, []);
    AppendedBlockIsCut(config + GAP, b);
    ReplaceAcross(config + GAP, b, b, []);
    ReplaceWhole(b, []);
    assert |config + GAP + b| > |config|;
  }

  /** Cleaning takes out every leftmost non-overlapping occurrence of the block and nothing else. */
  lemma CleanRemovesAll(config: Text, block: Text)
    requires block != []
    ensures LeftmostCut(config, block, Pieces(config, block)) && Clean(config, block) == Glue(Pieces(config, block), [])
  {
    ReplaceAllIsLeftmost(config, block, []);
  }

  /** Migrating replaces every leftmost non-overlapping provider line and nothing else. */
  lemma MigrateReplacesAll(config: Text, prefix: Text)
    ensures var provider := Provider(prefix);
            && provider != []
            && LeftmostCut(config, provider, Pieces(config, provider))
            && Migrate(config, prefix) == Glue(Pieces(config, provider), AGENT)
  {
    var provider := Provider(prefix);
    assert provider[0] == 'P';
    ReplaceAllIsLeftmost(config, provider, AGENT);
    if !Contains(config, provider) { UncutIsWhole(config, provider); }
  }

  // ---------- migrating ----------

  predicate NoWhitespace(s: Text) {
    forall i :: 0 <= i < |s| ==> s[i] != ' ' && s[i] != '\t' && s[i] != '\n'
  }

  lemma PkcsFacts()
    ensures |PKCS| == 14 && PKCS[0] == 'P' && PKCS[1] == 'K' && PKCS[13] == 'r' && '/' !in PKCS && NoWhitespace(PKCS)
  {
  }

  lemma LibFacts()
    ensures |LIB| == 17 && LIB[16] == 'o' && NoWhitespace(LIB)
  {
  }

  /** A provider line starts with its keyword, holds one space, and no tab or newline. */
  lemma ProviderShape(prefix: Text)
    requires NoWhitespace(prefix)
    ensures var p := Provider(prefix);
            && |PKCS| == 14 && |p| > 15 && p[..14] == PKCS && p[0] == 'P' && p[1] == 'K' && p[14] == ' '
            && '\t' !in p && '\n' !in p
            && (forall i :: 0 <= i < |p| && i != 14 ==> p[i] != ' ')
            && p[|p| - 1] == 'o' && p[13] == 'r' && '/' !in PKCS
  {
    PkcsFacts();
    LibFacts();
    var p := Provider(prefix);
    assert p[..14] == PKCS;
    assert forall i :: 0 <= i < 14 ==> p[i] == p[..14][i];
    assert forall i :: 0 <= i < |prefix| ==> p[15 + i] == prefix[i];
    assert forall i :: 0 <= i < |LIB| ==> p[15 + |prefix| + i] == LIB[i];
    forall i | 0 <= i < |p| && i != 14 ensures p[i] != ' ' && p[i] != '\t' && p[i] != '\n' {
      if 14 < i < 15 + |prefix| {
        assert p[i] == prefix[i - 15];
      } else if i >= 15 {
        assert p[i] == LIB[i - 15 - |prefix|];
      }
    }
  }

  /** No occurrence begins before the block and reaches into it. */
  lemma CutBeforeBlock(a: Text, b: Text, prefix: Text)
    requires NoWhitespace(prefix) && HEAD <= b
    ensures CleanCut(a, b, Provider(prefix))
  {
    var p := Provider(prefix);
    ProviderShape(prefix);
    HeadFacts();
    assert b[0] == '#' && b[1] == ' ';
    forall i | 0 <= i < |a| < i + |p| ensures !At(a + b, i, p) {
      var d := |a| - i;
      if d == 13 || d == |p| - 1 {
        Differs(a + b, i, p, d);
      } else {
        Differs(a + b, i, p, d + 1);
      }
    }
  }

  /** No occurrence begins before a provider line and reaches into it: a tab stands there. */
  lemma CutAfterHead(b: Text, prefix: Text)
    requires NoWhitespace(prefix)
    ensures CleanCut(HEAD, b, Provider(prefix))
  {
    var p := Provider(prefix);
    ProviderShape(prefix);
    HeadFacts();
    forall i | 0 <= i < |HEAD| < i + |p| ensures !At(HEAD + b, i, p) {
      var d := |HEAD| - 1 - i;
      assert p[d] in p;
      Differs(HEAD + b, i, p, d);
    }
  }

  lemma CutAfterProvider(b: Text, prefix: Text)
    requires NoWhitespace(prefix) && PROXY <= b
    ensures CleanCut(Provider(prefix), b, Provider(prefix))
  {
    var p := Provider(prefix);
    ProviderShape(prefix);
    ProxyFacts();
    assert b[0] == '\n';
    forall i | 0 <= i < |p| < i + |p| ensures !At(p + b, i, p) {
      assert p[|p| - i] in p;
      Differs(p + b, i, p, |p| - i);
    }
  }

  /** The lines behind the provider line hold no other, whatever the prefix. */
  lemma RestHasNoProvider(z: Text, prefix: Text)
    requires NoWhitespace(prefix)
    ensures forall i :: 0 <= i < |Rest(prefix)| ==> !At(Rest(prefix) + z, i, Provider(prefix))
  {
    var p, s := Provider(prefix), Rest(prefix) + z;
    ProviderShape(prefix);
    ProxyFacts();
    TailFacts();
    var e := 15 + |prefix|;
    assert |Rest(prefix)| == e + |TAIL| && s[3] == PROXY[3];
    forall i | 0 <= i < e + |TAIL| ensures !At(s, i, p) {
      if i == 2 {
        Differs(s, i, p, 1);
      } else if i < 15 {
        assert s[i] == PROXY[i];
        Differs(s, i, p, 0);
      } else if i >= e {
        assert s[i] == TAIL[i - e] && TAIL[i - e] in TAIL;
        Differs(s, i, p, 0);
      } else {
        assert s[15..e] == prefix && s[e] == '/';
        PrefixHoldsNoProvider(s, i, prefix);
      }
    }
  }

  /** A provider line that began inside the prefix would need a slash in its keyword or a space after it. */
  lemma PrefixHoldsNoProvider(s: Text, i: nat, prefix: Text)
    requires NoWhitespace(prefix) && 15 <= i < 15 + |prefix| < |s|
    requires s[15..15 + |prefix|] == prefix && s[15 + |prefix|] == '/'
    ensures !At(s, i, Provider(prefix))
  {
    var p, e := Provider(prefix), 15 + |prefix|;
    ProviderShape(prefix);
    if e - i < 14 {
      assert p[e - i] == p[..14][e - i] && p[..14][e - i] in PKCS;
      Differs(s, i, p, e - i);
    } else if i + 14 == e {
      Differs(s, i, p, 14);
    } else {
      assert s[i + 14] == s[15..e][i - 1];
      Differs(s, i, p, 14);
    }
  }

  lemma HeadHasNoProvider(prefix: Text)
    requires NoWhitespace(prefix)
    ensures !Contains(HEAD, Provider(prefix))
  {
    var p := Provider(prefix);
    ProviderShape(prefix);
    HeadFacts();
    forall i | 0 <= i <= |HEAD| ensures !At(HEAD, i, p) {
      if i < |HEAD| {
        assert HEAD[i] in HEAD;
        Differs(HEAD, i, p, 0);
      }
    }
  }

  lemma MigrateFromRest(z: Text, prefix: Text)
    requires NoWhitespace(prefix)
    ensures ReplaceAll(Rest(prefix) + z, Provider(prefix), AGENT) == Rest(prefix) + ReplaceAll(z, Provider(prefix), AGENT)
  {
    var p, r := Provider(prefix), Rest(prefix);
    ProviderShape(prefix);
    RestHasNoProvider(z, prefix);
    ReplaceAcross(r, z, p, AGENT);
    RestHasNoProvider([], prefix);
    assert r + [] == r;
    assert !At(r, |r|, p);
    ReplaceNothing(r, p, AGENT);
  }

  lemma MigrateFromBlock(z: Text, prefix: Text)
    requires NoWhitespace(prefix)
    ensures ReplaceAll(HEAD + (Provider(prefix) + (Rest(prefix) + z)), Provider(prefix), AGENT)
            == HEAD + (AGENT + (Rest(prefix) + ReplaceAll(z, Provider(prefix), AGENT)))
  {
    var p, fromRest := Provider(prefix), Rest(prefix) + z;
    CutAfterHead(p + fromRest, prefix);
    HeadHasNoProvider(prefix);
    CutAfterProvider(fromRest, prefix);
    ReplaceBetween(HEAD, p, fromRest, AGENT);
    MigrateFromRest(z, prefix);
  }

  lemma Regroup(a: Text, h: Text, m: Text, r: Text, z: Text)
    ensures a + (h + m + r) + z == a + (h + (m + (r + z)))
  {
  }

  /**
   Migration turns an old block into the new one in place, and treats the text before and
   after it on its own; for every prefix without white space.
   */
  lemma MigrateConvertsBlock(a: Text, z: Text, prefix: Text)
    requires NoWhitespace(prefix)
    ensures Migrate(a + OldBlock(prefix) + z, prefix) ==
            ReplaceAll(a, Provider(prefix), AGENT) + NewBlock(prefix) + ReplaceAll(z, Provider(prefix), AGENT)
  {
    var p, r := Provider(prefix), Rest(prefix);
    var fromBlock := HEAD + (p + (r + z));
    var config := a + OldBlock(prefix) + z;
    Regroup(a, HEAD, p, r, z);
    assert config == a + fromBlock;
    ProviderInside(a, r + z, prefix);
    CutBeforeBlock(a, fromBlock, prefix);
    ReplaceAcross(a, fromBlock, p, AGENT);
    MigrateFromBlock(z, prefix);
    Regroup(ReplaceAll(a, p, AGENT), HEAD, AGENT, r, ReplaceAll(z, p, AGENT));
  }

  lemma ProviderInside(a: Text, rest: Text, prefix: Text)
    ensures Contains(a + (HEAD + (Provider(prefix) + rest)), Provider(prefix))
  {
    assert At(a + (HEAD + (Provider(prefix) + rest)), |a| + |HEAD|, Provider(prefix));
  }

  /** So a config holding the old block holds the new one after migration, and editing it is a no-op. */
  lemma MigratedNeedsNoEdit(config: Text, prefix: Text, force: bool, confirmed: bool)
    requires NoWhitespace(prefix) && Contains(config, Block(prefix, false))
    ensures Contains(Migrate(config, prefix), Block(prefix, true))
    ensures Edit(Migrate(config, prefix), Block(prefix, true), force, confirmed) == Migrate(config, prefix)
  {
    BlockNamesKeySource(prefix);
    MigratedHoldsBlock(config, prefix);
  }

  lemma MigratedHoldsBlock(config: Text, prefix: Text)
    requires NoWhitespace(prefix) && Contains(config, OldBlock(prefix))
    ensures Contains(Migrate(config, prefix), NewBlock(prefix))
  {
    var b := OldBlock(prefix);
    var i :| 0 <= i <= |config| && At(config, i, b);
    var a, z := config[..i], config[i + |b|..];
    assert config == a + b + z;
    MigrateConvertsBlock(a, z, prefix);
    var before := ReplaceAll(a, Provider(prefix), AGENT);
    assert At(Migrate(config, prefix), |before|, NewBlock(prefix));
  }
}
