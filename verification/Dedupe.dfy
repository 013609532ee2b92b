/** Member event deduplication: string keys with an expiry time. */
module Dedupe {
  import opened Decimals
  import opened Discord

  const MEMBER_DEDUPE_EXPIRATION := 60

  type DedupeTable = map<string, int>

  datatype Kind = Add | Remove

  function Tag(kind: Kind): string {
    match kind
    case Add => "MA:"
    case Remove => "MR:"
  }

  function MemberKey(kind: Kind, g: GuildID, u: UserID): string {
    Tag(kind) + (Format(g) + ":" + Format(u))
  }

  function Opposite(kind: Kind): Kind {
    if kind.Add? then Remove else Add
  }

  lemma SplitAtColon(a: string, b: string, c: string, d: string)
    requires ':' !in a && ':' !in c && a + ":" + b == c + ":" + d
    ensures a == c && b == d
  {
    var s := a + ":" + b;
    assert s == c + ":" + d;
    assert s[|a|] == ':' && s[|c|] == ':';
    assert forall i :: 0 <= i < |a| ==> s[i] == a[i] && a[i] != ':';
    assert forall i :: 0 <= i < |c| ==> s[i] == c[i] && c[i] != ':';
    assert |a| == |c|;
    assert s[..|a|] == a && s[..|a|] == c;
    assert s[|a| + 1..] == b && s[|a| + 1..] == d;
  }

  /** Two keys are equal only for the same kind of event, guild and user. */
  lemma KeysAreInjective(k: Kind, g: GuildID, u: UserID, k': Kind, g': GuildID, u': UserID)
    requires MemberKey(k, g, u) == MemberKey(k', g', u')
    ensures k == k' && g == g' && u == u'
  {
    var s, t := Format(g) + ":" + Format(u), Format(g') + ":" + Format(u');
    assert MemberKey(k, g, u)[1] == Tag(k)[1] && MemberKey(k', g', u')[1] == Tag(k')[1];
    assert MemberKey(k, g, u)[3..] == s && MemberKey(k', g', u')[3..] == t;
    if ':' in Format(g) { FormatChars(g, ':'); }
    if ':' in Format(g') { FormatChars(g', ':'); }
    SplitAtColon(Format(g), Format(u), Format(g'), Format(u'));
    FormatInjective(g, g');
    FormatInjective(u, u');
  }

  /** A key suppresses events while it is present and unexpired. A stored 0 never does. */
  predicate Suppressed(dedupe: DedupeTable, key: string, now: int) {
    key in dedupe && now < dedupe[key] && dedupe[key] != 0
  }

  /** Sets the key unless it already suppresses. */
  function CheckAndAdd(dedupe: DedupeTable, key: string, now: int): DedupeTable {
    if Suppressed(dedupe, key, now) then dedupe else dedupe[key := now + MEMBER_DEDUPE_EXPIRATION]
  }

  /** The ejector drops what has expired. */
  function Expire(dedupe: DedupeTable, now: int): DedupeTable {
    map k | k in dedupe && !(now > dedupe[k]) :: dedupe[k]
  }

  /** A key goes with the first sweep after its expiry time and not before; it suppresses up to that time only. */
  lemma KeyGoesWhenExpired(dedupe: DedupeTable, key: string, now: int)
    requires key in dedupe
    ensures key in Expire(dedupe, now) <==> now <= dedupe[key]
    ensures key in Expire(dedupe, now) ==> Expire(dedupe, now)[key] == dedupe[key]
    ensures Suppressed(dedupe, key, now) <==> now < dedupe[key] && dedupe[key] != 0
    ensures Suppressed(dedupe, key, now) ==> Suppressed(Expire(dedupe, now), key, now)
  {
  }
}
