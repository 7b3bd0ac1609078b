/**
 * The `/download` command of bot/modules/download.py: the `--flag value` option parser
 * and the choice of provider from the link's prefix.
 */
module Download {
  import opened Wrappers
  import opened Strings
  import opened Dynamic
  import opened Assoc

  /** A token that names an option. */
  predicate IsFlag(part: string) {
    StartsWith(part, "--")
  }

  /** The option name of a flag token: the token without its leading "--". */
  function FlagKey(part: string): string
    requires IsFlag(part)
  {
    part[2..]
  }

  /** Whether the flag at `i` takes the next token as its value. */
  predicate TakesValue(parts: seq<string>, i: nat) {
    i + 1 < |parts| && !IsFlag(parts[i + 1])
  }

  /** The value the flag at `i` is given: the next token, or `True`. */
  function FlagValue(parts: seq<string>, i: nat): (v: Value)
    ensures TakesValue(parts, i) ==> v == StrV(parts[i + 1])
    ensures !TakesValue(parts, i) ==> v == BoolV(true)
  {
    if TakesValue(parts, i) then StrV(parts[i + 1]) else BoolV(true)
  }

  /** How far the scan moves past position `i`. */
  function Step(parts: seq<string>, i: nat): nat {
    if i < |parts| && IsFlag(parts[i]) && TakesValue(parts, i) then 2 else 1
  }

  /** The options the scan produces when it resumes at `i` holding `acc`. */
  function ParseFrom(parts: seq<string>, i: nat, acc: Dict<string, Value>): Dict<string, Value>
    decreases |parts| - i
  {
    if i >= |parts| then acc
    else if IsFlag(parts[i]) then
      ParseFrom(parts, i + Step(parts, i), Put(acc, FlagKey(parts[i]), FlagValue(parts, i)))
    else ParseFrom(parts, i + 1, acc)
  }

  /** `parse_options(parts)`, as a dict in insertion order. */
  function Parse(parts: seq<string>): Dict<string, Value> {
    ParseFrom(parts, 0, [])
  }

  /** Some token at `i` or later is a flag for `k`. */
  predicate FlagFor(parts: seq<string>, i: nat, k: string) {
    exists j :: i <= j < |parts| && IsFlag(parts[j]) && FlagKey(parts[j]) == k
  }

  /** `parse_options`: the while loop over `i`, advancing by one, or by two past a value. */
  method ParseOptions(parts: seq<string>) returns (options: Dict<string, Value>)
    ensures options == Parse(parts)
    ensures WellFormed(options)
    ensures forall k :: k in Keys(options) <==> FlagFor(parts, 0, k)
  {
    options := [];
    var i := 0;
    while i < |parts|
      invariant 0 <= i <= |parts|
      invariant ParseFrom(parts, i, options) == Parse(parts)
      decreases |parts| - i
    {
      var part := parts[i];
      if StartsWith(part, "--") {
        var key := part[2..];
        if i + 1 < |parts| && !StartsWith(parts[i + 1], "--") {
          options := Put(options, key, StrV(parts[i + 1]));
          i := i + 1;
        } else {
          options := Put(options, key, BoolV(true));
        }
      }
      i := i + 1;
    }
    ParseWellFormed(parts, 0, []);
    forall k {
      ParseKeys(parts, 0, [], k);
    }
  }

  /** The parse keeps the dict's keys distinct. */
  lemma {:induction false} ParseWellFormed(parts: seq<string>, i: nat, acc: Dict<string, Value>)
    requires WellFormed(acc)
    ensures WellFormed(ParseFrom(parts, i, acc))
    decreases |parts| - i
  {
    if i < |parts| {
      if IsFlag(parts[i]) {
        PutWellFormed(acc, FlagKey(parts[i]), FlagValue(parts, i));
        ParseWellFormed(parts, i + Step(parts, i), Put(acc, FlagKey(parts[i]), FlagValue(parts, i)));
      } else {
        ParseWellFormed(parts, i + 1, acc);
      }
    }
  }

  /**
   * The keys are exactly the flag tokens without "--": a flag token is never taken as
   * the value of the flag before it, so every one of them is visited.
   */
  lemma {:induction false} ParseKeys(parts: seq<string>, i: nat, acc: Dict<string, Value>, k: string)
    ensures k in Keys(ParseFrom(parts, i, acc)) <==> k in Keys(acc) || FlagFor(parts, i, k)
    decreases |parts| - i
  {
    if i < |parts| {
      var next := i + Step(parts, i);
      if IsFlag(parts[i]) {
        var acc' := Put(acc, FlagKey(parts[i]), FlagValue(parts, i));
        ParseKeys(parts, next, acc', k);
        assert k in Keys(acc') <==> k in Keys(acc) || k == FlagKey(parts[i]) by {
          PutKeys(acc, FlagKey(parts[i]), FlagValue(parts, i), k);
        }
        if next == i + 2 {
          assert !IsFlag(parts[i + 1]);
        }
        if FlagFor(parts, i, k) && !FlagFor(parts, next, k) {
          var j :| i <= j < |parts| && IsFlag(parts[j]) && FlagKey(parts[j]) == k;
          assert j == i;
        }
      } else {
        ParseKeys(parts, i + 1, acc, k);
        if FlagFor(parts, i, k) {
          var j :| i <= j < |parts| && IsFlag(parts[j]) && FlagKey(parts[j]) == k;
          assert j != i;
        }
      }
    }
  }

  /** Assignment to a dict adds exactly its key. */
  lemma PutKeys(d: Dict<string, Value>, key: string, v: Value, k: string)
    ensures k in Keys(Put(d, key, v)) <==> k in Keys(d) || k == key
  {
    if key !in Keys(d) {
      assert Keys(d + [(key, v)]) == Keys(d) + [key];
    }
    GetPutSame(d, key, v);
    if k != key {
      GetPutOther(d, key, v, k);
    }
  }

  /** A flag found from a later position is found from an earlier one. */
  lemma FlagForLater(parts: seq<string>, i: nat, j: nat, k: string)
    requires i <= j
    ensures FlagFor(parts, j, k) ==> FlagFor(parts, i, k)
  {
    if FlagFor(parts, j, k) {
      var m :| j <= m < |parts| && IsFlag(parts[m]) && FlagKey(parts[m]) == k;
      assert i <= m;
    }
  }

  /** A key with no flag at `i` or later keeps the value it had. */
  lemma {:induction false} ParseUntouched(parts: seq<string>, i: nat, acc: Dict<string, Value>, k: string)
    requires !FlagFor(parts, i, k)
    ensures Get(ParseFrom(parts, i, acc), k) == Get(acc, k)
    decreases |parts| - i
  {
    if i < |parts| {
      if IsFlag(parts[i]) {
        assert FlagKey(parts[i]) != k;
        GetPutOther(acc, FlagKey(parts[i]), FlagValue(parts, i), k);
        ParseUntouched(parts, i + Step(parts, i), Put(acc, FlagKey(parts[i]), FlagValue(parts, i)), k);
      } else {
        ParseUntouched(parts, i + 1, acc, k);
      }
    }
  }

  /**
   * The last flag for `k` decides its value: the token after it when that token is not a
   * flag, otherwise `True`. An earlier occurrence is overwritten.
   */
  lemma {:induction false} LastFlagWins(parts: seq<string>, i: nat, acc: Dict<string, Value>, j: nat)
    requires i <= j < |parts| && IsFlag(parts[j])
    requires !FlagFor(parts, j + 1, FlagKey(parts[j]))
    ensures Get(ParseFrom(parts, i, acc), FlagKey(parts[j])) == Some(FlagValue(parts, j))
    decreases |parts| - i
  {
    var k := FlagKey(parts[j]);
    if i == j {
      var acc' := Put(acc, k, FlagValue(parts, j));
      FlagForLater(parts, j + 1, j + Step(parts, j), k);
      ParseUntouched(parts, j + Step(parts, j), acc', k);
      GetPutSame(acc, k, FlagValue(parts, j));
    } else if IsFlag(parts[i]) {
      if Step(parts, i) == 2 {
        assert !IsFlag(parts[i + 1]);
        assert i + 2 <= j;
      }
      LastFlagWins(parts, i + Step(parts, i), Put(acc, FlagKey(parts[i]), FlagValue(parts, i)), j);
    } else {
      LastFlagWins(parts, i + 1, acc, j);
    }
  }

  /** The value of every parsed option, read through the last flag that names it. */
  lemma ParseValue(parts: seq<string>, j: nat)
    requires j < |parts| && IsFlag(parts[j]) && !FlagFor(parts, j + 1, FlagKey(parts[j]))
    ensures Get(Parse(parts), FlagKey(parts[j])) == Some(FlagValue(parts, j))
  {
    LastFlagWins(parts, 0, [], j);
  }

  /** The link of an unreplied command: the last token, or none when there are no tokens. */
  function CommandLink(parts: seq<string>): (r: Option<string>)
    ensures r.None? <==> parts == []
    ensures r.Some? ==> r.value == parts[|parts| - 1]
  {
    if |parts| > 0 then Some(parts[|parts| - 1]) else None
  }

  /**
   * A link right after a valued flag is taken as that flag's value, while it is still the
   * command's link.
   */
  lemma LinkAfterFlag(flag: string, link: string)
    requires IsFlag(flag) && !IsFlag(link)
    ensures Get(Parse([flag, link]), FlagKey(flag)) == Some(StrV(link))
    ensures CommandLink([flag, link]) == Some(link)
  {
    var parts := [flag, link];
    assert !FlagFor(parts, 1, FlagKey(flag)) by {
      forall m | 1 <= m < |parts|
        ensures !IsFlag(parts[m])
      {
        assert m == 1;
      }
    }
    ParseValue(parts, 0);
  }

  // The provider a link is sent to.

  datatype Provider = Tidal | Deezer | Qobuz | Spotify | AppleMusic | Unsupported

  const TidalPrefixes: seq<string> := ["https://tidal.com", "https://listen.tidal.com", "tidal.com", "listen.tidal.com"]
  const DeezerPrefixes: seq<string> := ["https://link.deezer.com", "https://deezer.com", "deezer.com", "https://www.deezer.com", "link.deezer.com"]
  const QobuzPrefixes: seq<string> := ["https://play.qobuz.com", "https://open.qobuz.com", "https://www.qobuz.com"]
  const SpotifyPrefixes: seq<string> := ["https://open.spotify.com"]
  const ApplePrefixes: seq<string> := ["https://music.apple.com"]

  /** Python's `s.startswith(tuple(ps))`. */
  predicate StartsWithAny(s: string, ps: seq<string>) {
    exists i :: 0 <= i < |ps| && StartsWith(s, ps[i])
  }

  /** The prefix groups in the order `start_link` tries them. */
  function Groups(): seq<(seq<string>, Provider)> {
    [(TidalPrefixes, Tidal), (DeezerPrefixes, Deezer), (QobuzPrefixes, Qobuz),
     (SpotifyPrefixes, Spotify), (ApplePrefixes, AppleMusic)]
  }

  /** The provider of the first group, in order, with a prefix of `link`; unsupported if none. */
  function FirstGroup(link: string, gs: seq<(seq<string>, Provider)>): (r: Provider)
    requires forall g :: 0 <= g < |gs| ==> gs[g].1 != Unsupported
    ensures r == Unsupported <==> forall g :: 0 <= g < |gs| ==> !StartsWithAny(link, gs[g].0)
    ensures r != Unsupported ==> exists g :: 0 <= g < |gs| && gs[g].1 == r && StartsWithAny(link, gs[g].0)
  {
    if |gs| == 0 then Unsupported
    else if StartsWithAny(link, gs[0].0) then gs[0].1
    else
      var r := FirstGroup(link, gs[1..]);
      assert forall g :: 1 <= g < |gs| ==> gs[g] == gs[1..][g - 1];
      r
  }

  /** A group with a prefix of `link` is chosen when no earlier group has one. */
  lemma {:induction false} FirstGroupAt(link: string, gs: seq<(seq<string>, Provider)>, g: nat)
    requires forall h :: 0 <= h < |gs| ==> gs[h].1 != Unsupported
    requires g < |gs| && StartsWithAny(link, gs[g].0)
    requires forall h :: 0 <= h < g ==> !StartsWithAny(link, gs[h].0)
    ensures FirstGroup(link, gs) == gs[g].1
  {
    if g > 0 {
      FirstGroupAt(link, gs[1..], g - 1);
    }
  }

  /** The dispatch of `start_link`: tidal, deezer, qobuz, spotify, then apple. */
  function Route(link: string): (r: Provider)
    ensures r == Unsupported <==> forall g :: 0 <= g < |Groups()| ==> !StartsWithAny(link, Groups()[g].0)
  {
    FirstGroup(link, Groups())
  }

  /** Two prefixes of one text: the shorter is a prefix of the longer. */
  lemma PrefixesNest(s: string, p: string, q: string)
    requires StartsWith(s, p) && StartsWith(s, q) && |p| <= |q|
    ensures StartsWith(q, p)
  {
    assert q[..|p|] == s[..|q|][..|p|] == s[..|p|];
  }

  /** No prefix of one group is a prefix of, or extended by, a prefix of another group. */
  predicate Apart(ps: seq<string>, qs: seq<string>) {
    forall i, j :: 0 <= i < |ps| && 0 <= j < |qs| ==> !StartsWith(ps[i], qs[j]) && !StartsWith(qs[j], ps[i])
  }

  /** Two texts that differ at position `k` are not prefixes of each other. */
  lemma DifferAt(p: string, q: string, k: nat)
    requires k < |p| && k < |q| && p[k] != q[k]
    ensures !StartsWith(p, q) && !StartsWith(q, p)
  {
    if |q| <= |p| { assert p[..|q|][k] == p[k]; }
    if |p| <= |q| { assert q[..|p|][k] == q[k]; }
  }

  predicate DiffersAt(p: string, q: string, k: nat) {
    k < |p| && k < |q| && p[k] != q[k]
  }

  /** A position where two prefixes of different groups differ, when one of these does. */
  function Witness(p: string, q: string): nat {
    if DiffersAt(p, q, 0) then 0
    else if DiffersAt(p, q, 2) then 2
    else if DiffersAt(p, q, 8) then 8
    else if DiffersAt(p, q, 10) then 10
    else if DiffersAt(p, q, 12) then 12
    else 13
  }

  lemma ApartByWitness(ps: seq<string>, qs: seq<string>)
    requires forall i, j :: 0 <= i < |ps| && 0 <= j < |qs| ==> DiffersAt(ps[i], qs[j], Witness(ps[i], qs[j]))
    ensures Apart(ps, qs)
  {
    forall i, j | 0 <= i < |ps| && 0 <= j < |qs|
      ensures !StartsWith(ps[i], qs[j]) && !StartsWith(qs[j], ps[i])
    {
      DifferAt(ps[i], qs[j], Witness(ps[i], qs[j]));
    }
  }

  lemma TidalApart()
    ensures Apart(TidalPrefixes, DeezerPrefixes) && Apart(TidalPrefixes, QobuzPrefixes)
    ensures Apart(TidalPrefixes, SpotifyPrefixes) && Apart(TidalPrefixes, ApplePrefixes)
  {
    ApartByWitness(TidalPrefixes, DeezerPrefixes);
    ApartByWitness(TidalPrefixes, QobuzPrefixes);
    ApartByWitness(TidalPrefixes, SpotifyPrefixes);
    ApartByWitness(TidalPrefixes, ApplePrefixes);
  }

  lemma DeezerApart()
    ensures Apart(DeezerPrefixes, QobuzPrefixes) && Apart(DeezerPrefixes, SpotifyPrefixes)
    ensures Apart(DeezerPrefixes, ApplePrefixes)
  {
    ApartByWitness(DeezerPrefixes, QobuzPrefixes);
    ApartByWitness(DeezerPrefixes, SpotifyPrefixes);
    ApartByWitness(DeezerPrefixes, ApplePrefixes);
  }

  lemma OthersApart()
    ensures Apart(QobuzPrefixes, SpotifyPrefixes) && Apart(QobuzPrefixes, ApplePrefixes)
    ensures Apart(SpotifyPrefixes, ApplePrefixes)
  {
    ApartByWitness(QobuzPrefixes, SpotifyPrefixes);
    ApartByWitness(QobuzPrefixes, ApplePrefixes);
    ApartByWitness(SpotifyPrefixes, ApplePrefixes);
  }

  lemma GroupsApart()
    ensures forall g, h :: 0 <= g < h < |Groups()| ==> Apart(Groups()[g].0, Groups()[h].0)
  {
    TidalApart();
    DeezerApart();
    OthersApart();
  }

  /**
   * A link matches at most one prefix group, so the order in which `start_link` tries the
   * groups never changes the provider chosen.
   */
  lemma RouteUnambiguous(link: string, g: nat, h: nat)
    requires g < h < |Groups()|
    ensures !(StartsWithAny(link, Groups()[g].0) && StartsWithAny(link, Groups()[h].0))
  {
    if StartsWithAny(link, Groups()[g].0) && StartsWithAny(link, Groups()[h].0) {
      var ps, qs := Groups()[g].0, Groups()[h].0;
      var i :| 0 <= i < |ps| && StartsWith(link, ps[i]);
      var j :| 0 <= j < |qs| && StartsWith(link, qs[j]);
      GroupsApart();
      assert Apart(ps, qs);
      if |ps[i]| <= |qs[j]| {
        PrefixesNest(link, ps[i], qs[j]);
      } else {
        PrefixesNest(link, qs[j], ps[i]);
      }
    }
  }

  /** The provider chosen is the one whose group matches, whatever the order. */
  lemma RouteIsTheMatchingGroup(link: string, g: nat)
    requires g < |Groups()| && StartsWithAny(link, Groups()[g].0)
    ensures Route(link) == Groups()[g].1
  {
    forall h | 0 <= h < |Groups()| && h != g
      ensures !StartsWithAny(link, Groups()[h].0)
    {
      if h < g { RouteUnambiguous(link, h, g); } else { RouteUnambiguous(link, g, h); }
    }
    FirstGroupAt(link, Groups(), g);
  }
}
