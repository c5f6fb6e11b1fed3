/**
 * The browser-side mapping from a repository and an issue title to the issue's URL,
 * used to link an agent back to the issue it was started for. The stored JSON object
 * is an ordered list of entries with distinct keys, in insertion order.
 */
module IssueMap {
  import opened Wrappers
  import opened Text

  predicate DistinctKeys(entries: seq<(string, string)>) {
    forall i, j :: 0 <= i < j < |entries| ==> entries[i].0 != entries[j].0
  }

  type IssueStore = entries: seq<(string, string)> | DistinctKeys(entries) witness []

  function Lookup(store: seq<(string, string)>, key: string): (r: Option<string>)
    ensures r.Some? <==> exists i :: 0 <= i < |store| && store[i].0 == key
    ensures r.Some? ==> exists i :: 0 <= i < |store| && store[i] == (key, r.value)
  {
    if store == [] then None
    else if store[0].0 == key then Some(store[0].1)
    else Lookup(store[1..], key)
  }

  // Title keys

  /** `[a-z0-9-]` with no two hyphens in a row: what the replacement leaves behind. */
  predicate IsSlug(s: string) {
    && (forall i :: 0 <= i < |s| ==> IsLowerAlnum(s[i]) || s[i] == '-')
    && (forall i :: 0 <= i < |s| - 1 ==> !(s[i] == '-' && s[i + 1] == '-'))
  }

  /** Drops a leading run of characters outside `[a-z0-9]`. */
  function SkipRun(s: string): (r: string)
    ensures |r| <= |s| && r == s[|s| - |r|..]
    ensures r == [] || IsLowerAlnum(r[0])
  {
    if s == [] || IsLowerAlnum(s[0]) then s else SkipRun(s[1..])
  }

  /** `s.replace(/[^a-z0-9]+/g, "-")`: each maximal run outside `[a-z0-9]` becomes one hyphen. */
  function Slugify(s: string): (r: string)
    ensures IsSlug(r)
    ensures r != [] && r[0] == '-' ==> s != [] && !IsLowerAlnum(s[0])
    decreases |s|
  {
    if s == [] then []
    else if IsLowerAlnum(s[0]) then [s[0]] + Slugify(s[1..])
    else "-" + Slugify(SkipRun(s[1..]))
  }

  /** The characters of `[a-z0-9]` in `s`, in order. */
  function Alnums(s: string): string {
    if s == [] then [] else (if IsLowerAlnum(s[0]) then [s[0]] else []) + Alnums(s[1..])
  }

  const TitleKeyLength: nat := 50

  /** `title.toLowerCase().replace(/[^a-z0-9]+/g, "-").slice(0, 50)`. */
  function TitleKey(title: string): (k: string)
    ensures |k| <= TitleKeyLength && IsSlug(k)
    ensures ':' !in k
    ensures k == Take(Collapse(Dashes(ToLower(title))), TitleKeyLength)
  {
    var k := Take(Slugify(ToLower(title)), TitleKeyLength);
    assert forall i :: 0 <= i < |k| ==> k[i] == Slugify(ToLower(title))[i];
    SlugifyIsCollapsedDashes(ToLower(title));
    k
  }

  // A reference reading of the replacement: first every character outside `[a-z0-9]`
  // becomes a hyphen, then each run of hyphens shrinks to one.

  /** Every character outside `[a-z0-9]` replaced by a hyphen. */
  function Dashes(s: string): (r: string)
    ensures |r| == |s|
    ensures forall i :: 0 <= i < |s| ==> r[i] == if IsLowerAlnum(s[i]) then s[i] else '-'
  {
    seq(|s|, i requires 0 <= i < |s| => if IsLowerAlnum(s[i]) then s[i] else '-')
  }

  /** Each run of hyphens shrunk to a single hyphen. */
  function Collapse(s: string): string {
    if |s| >= 2 && s[0] == '-' && s[1] == '-' then Collapse(s[1..])
    else if s == [] then []
    else [s[0]] + Collapse(s[1..])
  }

  lemma {:induction false} CollapseAfterHyphen(u: string)
    ensures Collapse("-" + Dashes(u)) == "-" + Collapse(Dashes(SkipRun(u)))
    decreases |u|
  {
    var t := "-" + Dashes(u);
    assert t[1..] == Dashes(u);
    if u == [] {
    } else if IsLowerAlnum(u[0]) {
      assert t[1] == u[0];
    } else {
      assert Dashes(u)[1..] == Dashes(u[1..]);
      CollapseAfterHyphen(u[1..]);
      assert t[1..] == "-" + Dashes(u[1..]);
    }
  }

  /** The slug replacement agrees with the reference: dash, then collapse. */
  lemma {:induction false} SlugifyIsCollapsedDashes(s: string)
    ensures Slugify(s) == Collapse(Dashes(s))
    decreases |s|
  {
    if s != [] {
      var d := Dashes(s);
      assert d[1..] == Dashes(s[1..]);
      if IsLowerAlnum(s[0]) {
        SlugifyIsCollapsedDashes(s[1..]);
      } else {
        assert d == "-" + Dashes(s[1..]);
        CollapseAfterHyphen(s[1..]);
        SlugifyIsCollapsedDashes(SkipRun(s[1..]));
      }
    }
  }

  lemma {:induction false} AlnumsOfSkipRun(s: string)
    ensures Alnums(SkipRun(s)) == Alnums(s)
  {
    if s != [] && !IsLowerAlnum(s[0]) {
      AlnumsOfSkipRun(s[1..]);
    }
  }

  /** Slugifying keeps every letter and digit, in order, and nothing else of them. */
  lemma {:induction false} SlugifyKeepsAlnums(s: string)
    ensures Alnums(Slugify(s)) == Alnums(s)
    decreases |s|
  {
    if s == [] {
    } else if IsLowerAlnum(s[0]) {
      SlugifyKeepsAlnums(s[1..]);
      assert Slugify(s) == [s[0]] + Slugify(s[1..]);
      assert ([s[0]] + Slugify(s[1..]))[1..] == Slugify(s[1..]);
    } else {
      SlugifyKeepsAlnums(SkipRun(s[1..]));
      AlnumsOfSkipRun(s[1..]);
      assert ("-" + Slugify(SkipRun(s[1..])))[1..] == Slugify(SkipRun(s[1..]));
    }
  }

  /** A slug is left as it is by slugifying. */
  lemma {:induction false} SlugifyOfSlug(s: string)
    requires IsSlug(s)
    ensures Slugify(s) == s
    decreases |s|
  {
    if s != [] {
      var t := s[1..];
      SlugTail(s);
      SlugifyOfSlug(t);
      if !IsLowerAlnum(s[0]) {
        assert SkipRun(t) == t;
      }
    }
  }

  /** Past the first character a slug is still a slug, and a hyphen is followed by a letter or digit. */
  lemma SlugTail(s: string)
    requires IsSlug(s) && s != []
    ensures IsSlug(s[1..])
    ensures IsLowerAlnum(s[0]) || (s[0] == '-' && (|s| == 1 || IsLowerAlnum(s[1])))
  {
    assert forall i :: 0 <= i < |s| - 1 ==> s[1..][i] == s[i + 1];
  }

  lemma ToLowerOfSlug(s: string)
    requires IsSlug(s)
    ensures ToLower(s) == s
  {
  }

  lemma PrefixOfSlug(s: string, n: nat)
    requires IsSlug(s)
    ensures IsSlug(Take(s, n))
  {
  }

  /** Normalising a title key again changes nothing. */
  lemma TitleKeyIdempotent(title: string)
    ensures TitleKey(TitleKey(title)) == TitleKey(title)
  {
    var k := TitleKey(title);
    ToLowerOfSlug(k);
    SlugifyOfSlug(k);
  }

  // Storing and finding mappings

  function MappingKey(repo: string, issueTitle: string): string {
    repo + ":" + TitleKey(issueTitle)
  }

  /** `map[key] = url` on a JS object: an existing key keeps its place, a new key goes last. */
  function Put(store: IssueStore, key: string, url: string): (r: IssueStore)
    ensures Lookup(r, key) == Some(url)
    ensures forall k :: k != key ==> Lookup(r, k) == Lookup(store, k)
    ensures Lookup(store, key).Some? ==> |r| == |store| && forall i :: 0 <= i < |store| ==> r[i].0 == store[i].0
  {
    if store == [] then [(key, url)]
    else if store[0].0 == key then
      FirstKeyNotLater(store);
      ConsDistinct((key, url), store[1..]);
      var r := [(key, url)] + store[1..];
      assert r[1..] == store[1..];
      r
    else
      var rest := Put(store[1..], key, url);
      FirstKeyNotLater(store);
      LookupAbsent(store[1..], store[0].0);
      NewKeysFrom(store[1..], rest, key, store[0].0);
      ConsDistinct(store[0], rest);
      var r := [store[0]] + rest;
      assert r[1..] == rest;
      r
  }

  /** A key not yet stored goes after every existing entry. */
  lemma {:induction false} PutAppends(store: IssueStore, key: string, url: string)
    requires Lookup(store, key).None?
    ensures Put(store, key, url) == store + [(key, url)]
  {
    if store != [] {
      assert store[1..] + [(key, url)] == (store + [(key, url)])[1..];
      PutAppends(store[1..], key, url);
    }
  }

  lemma FirstKeyNotLater(store: IssueStore)
    requires store != []
    ensures Lookup(store[1..], store[0].0).None?
  {
  }

  lemma LookupAbsent(store: seq<(string, string)>, k: string)
    requires Lookup(store, k).None?
    ensures forall i :: 0 <= i < |store| ==> store[i].0 != k
  {
  }

  lemma NewKeysFrom(prev: seq<(string, string)>, r: seq<(string, string)>, key: string, k: string)
    requires k != key && Lookup(r, k) == Lookup(prev, k) && Lookup(prev, k).None?
    ensures forall i :: 0 <= i < |r| ==> r[i].0 != k
  {
    LookupAbsent(r, k);
  }

  lemma ConsDistinct(h: (string, string), rest: IssueStore)
    requires forall i :: 0 <= i < |rest| ==> rest[i].0 != h.0
    ensures DistinctKeys([h] + rest)
  {
    var r := [h] + rest;
    forall i, j | 0 <= i < j < |r|
      ensures r[i].0 != r[j].0
    {
      if i > 0 {
        assert r[i] == rest[i - 1] && r[j] == rest[j - 1];
      }
    }
  }

  /** `storeIssueMapping`. */
  function StoreIssueMapping(store: IssueStore, repo: string, issueUrl: string, issueTitle: string): (r: IssueStore)
    ensures Lookup(r, MappingKey(repo, issueTitle)) == Some(issueUrl)
    ensures forall k :: k != MappingKey(repo, issueTitle) ==> Lookup(r, k) == Lookup(store, k)
  {
    Put(store, MappingKey(repo, issueTitle), issueUrl)
  }

  /** `key.split(":")[1]`: the text between the first and the second colon. */
  function SecondField(key: string): (f: string)
    ensures ':' !in f
    ensures ':' !in key ==> f == []
    ensures forall pre, rest :: ':' !in pre && key == pre + ":" + rest ==> f == FieldPrefix(rest)
  {
    if key == [] then []
    else if key[0] == ':' then FieldPrefix(key[1..])
    else
      var f := SecondField(key[1..]);
      assert forall pre, rest :: ':' !in pre && key == pre + ":" + rest ==> f == FieldPrefix(rest) by {
        forall pre, rest | ':' !in pre && key == pre + ":" + rest
          ensures f == FieldPrefix(rest)
        {
          assert pre != [] && key[1..] == pre[1..] + ":" + rest;
        }
      }
      f
  }

  /** The text before the first colon. */
  function FieldPrefix(s: string): (f: string)
    ensures ':' !in f && |f| <= |s| && f == s[..|f|]
    ensures |f| < |s| ==> s[|f|] == ':'
  {
    if s == [] || s[0] == ':' then [] else [s[0]] + FieldPrefix(s[1..])
  }

  /** Whether the stored entry `key` matches the agent name's key for `repo`. */
  predicate EntryMatches(key: string, repo: string, nameKey: string) {
    StartsWith(key, repo + ":") && Contains(nameKey, Take(SecondField(key), 20))
  }

  /** Entry `i` is the first one matching. */
  predicate FirstMatchAt(store: seq<(string, string)>, i: int, repo: string, nameKey: string) {
    && 0 <= i < |store|
    && EntryMatches(store[i].0, repo, nameKey)
    && forall j :: 0 <= j < i ==> !EntryMatches(store[j].0, repo, nameKey)
  }

  /** The first matching entry, in the stored order. */
  function FirstMatching(store: seq<(string, string)>, repo: string, nameKey: string): (r: Option<string>)
    ensures r.Some? ==> exists i :: FirstMatchAt(store, i, repo, nameKey) && store[i].1 == r.value
    ensures r.None? <==> forall i :: 0 <= i < |store| ==> !EntryMatches(store[i].0, repo, nameKey)
  {
    if store == [] then None
    else if EntryMatches(store[0].0, repo, nameKey) then Some(store[0].1)
    else
      var r := FirstMatching(store[1..], repo, nameKey);
      assert r.Some? ==> exists i :: FirstMatchAt(store, i, repo, nameKey) && store[i].1 == r.value by {
        if r.Some? {
          var i :| FirstMatchAt(store[1..], i, repo, nameKey) && store[1..][i].1 == r.value;
          forall j | 0 <= j < i + 1
            ensures !EntryMatches(store[j].0, repo, nameKey)
          {
            if j > 0 {
              assert store[j] == store[1..][j - 1];
            }
          }
          assert FirstMatchAt(store, i + 1, repo, nameKey);
        }
      }
      r
  }

  /** `findStoredIssueUrl`. */
  function FindStoredIssueUrl(store: IssueStore, repo: string, agentName: string): (r: Option<string>)
    ensures r.Some? ==> exists i :: FirstMatchAt(store, i, repo, TitleKey(agentName)) && store[i].1 == r.value
    ensures r.None? <==> forall i :: 0 <= i < |store| ==> !EntryMatches(store[i].0, repo, TitleKey(agentName))
  {
    FirstMatching(store, repo, TitleKey(agentName))
  }

  /** `deriveIssueUrl`: the agent's own non-empty issue URL, else the stored mapping. */
  function DeriveIssueUrl(store: IssueStore, name: string, repository: string, issueUrl: Option<string>): (r: Option<string>)
    ensures issueUrl.Some? && issueUrl.value != "" ==> r == issueUrl
    ensures !(issueUrl.Some? && issueUrl.value != "") ==> r == FindStoredIssueUrl(store, repository, name)
  {
    if issueUrl.Some? && issueUrl.value != "" then issueUrl else FindStoredIssueUrl(store, repository, name)
  }

  lemma {:induction false} SecondFieldOfKey(repo: string, titleKey: string)
    requires ':' !in repo && ':' !in titleKey
    ensures SecondField(repo + ":" + titleKey) == titleKey
    decreases |repo|
  {
    if repo == [] {
      assert (":" + titleKey)[1..] == titleKey;
      FieldPrefixOf(titleKey);
    } else {
      assert (repo + ":" + titleKey)[1..] == repo[1..] + ":" + titleKey;
      SecondFieldOfKey(repo[1..], titleKey);
    }
  }

  lemma {:induction false} FieldPrefixOf(s: string)
    requires ':' !in s
    ensures FieldPrefix(s) == s
  {
    if s != [] {
      assert ':' !in s[1..];
      FieldPrefixOf(s[1..]);
    }
  }

  lemma PrefixContained(s: string, n: nat)
    ensures Contains(s, Take(s, n))
  {
    assert StartsWith(s, Take(s, n));
  }

  /**
   * After an issue is stored from the create dialog, an agent named after the issue
   * title finds it again, unless some other stored entry already matched that agent.
   */
  lemma StoreThenFind(store: IssueStore, repo: string, issueUrl: string, title: string)
    requires ':' !in repo
    requires FindStoredIssueUrl(store, repo, title).None?
    ensures FindStoredIssueUrl(StoreIssueMapping(store, repo, issueUrl, title), repo, title) == Some(issueUrl)
  {
    var key := MappingKey(repo, title);
    var nameKey := TitleKey(title);
    SecondFieldOfKey(repo, nameKey);
    PrefixContained(nameKey, 20);
    assert StartsWith(key, repo + ":") by {
      assert key[..|repo + ":"|] == repo + ":";
    }
    assert EntryMatches(key, repo, nameKey);
    assert Lookup(store, key).None?;
    var r := StoreIssueMapping(store, repo, issueUrl, title);
    PutAppends(store, key, issueUrl);
    assert forall i :: 0 <= i < |store| ==> r[i] == store[i];
    assert FirstMatching(r, repo, nameKey) == Some(issueUrl) by {
      FirstMatchingAppend(store, key, issueUrl, repo, nameKey);
    }
  }

  lemma {:induction false} FirstMatchingAppend(store: seq<(string, string)>, key: string, url: string, repo: string, nameKey: string)
    requires forall i :: 0 <= i < |store| ==> !EntryMatches(store[i].0, repo, nameKey)
    requires EntryMatches(key, repo, nameKey)
    ensures FirstMatching(store + [(key, url)], repo, nameKey) == Some(url)
  {
    if store != [] {
      assert (store + [(key, url)])[1..] == store[1..] + [(key, url)];
      FirstMatchingAppend(store[1..], key, url, repo, nameKey);
    }
  }
}
