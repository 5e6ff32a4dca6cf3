/**
 * The two mention helpers of index.js. A Discord mention is written `<@id>`,
 * `<@!id>` (user) or `<#id>` (channel); each helper deletes every character of
 * a fixed character class from the text, as `String.replace` with a global
 * character-class regular expression does.
 */
module Mentions {

  /** The characters of the class `[<@!>]`. */
  const USER_MENTION_CHARS: set<char> := {'<', '@', '!', '>'}

  /** The characters of the class `[<#>]`. */
  const CHANNEL_MENTION_CHARS: set<char> := {'<', '#', '>'}

  /** `s` with every character of `drop` deleted and the others kept in order. */
  function Strip(s: string, drop: set<char>): (r: string)
    ensures |r| <= |s|
    ensures forall i :: 0 <= i < |r| ==> r[i] !in drop
    ensures forall c :: c !in drop ==> multiset(r)[c] == multiset(s)[c]
  {
    if s == [] then []
    else
      assert s == [s[0]] + s[1..];
      if s[0] in drop then Strip(s[1..], drop)
      else [s[0]] + Strip(s[1..], drop)
  }

  /** Stripping distributes over concatenation, so the relative order of the kept characters is that of `s`. */
  lemma {:induction false} StripAppend(a: string, b: string, drop: set<char>)
    ensures Strip(a + b, drop) == Strip(a, drop) + Strip(b, drop)
  {
    if a == [] {
      assert a + b == b;
    } else {
      assert (a + b)[0] == a[0];
      assert (a + b)[1..] == a[1..] + b;
      StripAppend(a[1..], b, drop);
    }
  }

  /** A text changes under stripping exactly when it holds a character of `drop`. */
  lemma {:induction false} StripIdentity(s: string, drop: set<char>)
    ensures Strip(s, drop) == s <==> forall i :: 0 <= i < |s| ==> s[i] !in drop
  {
    if s != [] {
      StripIdentity(s[1..], drop);
      if s[0] in drop {
        assert |Strip(s, drop)| <= |s[1..]| < |s|;
      }
    }
  }

  /** Stripping twice is stripping once. */
  lemma StripIdempotent(s: string, drop: set<char>)
    ensures Strip(Strip(s, drop), drop) == Strip(s, drop)
  {
    StripIdentity(Strip(s, drop), drop);
  }

  /** `getUserFromMention`: the mention with every `<`, `@`, `!` and `>` removed. */
  function GetUserFromMention(mention: string): (id: string)
    ensures forall i :: 0 <= i < |id| ==> id[i] !in USER_MENTION_CHARS
    ensures forall c :: c !in USER_MENTION_CHARS ==> multiset(id)[c] == multiset(mention)[c]
  {
    Strip(mention, USER_MENTION_CHARS)
  }

  /** `getChannelFromMention`: the mention with every `<`, `#` and `>` removed. */
  function GetChannelFromMention(mention: string): (id: string)
    ensures forall i :: 0 <= i < |id| ==> id[i] !in CHANNEL_MENTION_CHARS
    ensures forall c :: c !in CHANNEL_MENTION_CHARS ==> multiset(id)[c] == multiset(mention)[c]
  {
    Strip(mention, CHANNEL_MENTION_CHARS)
  }

  /**
   * Both helpers work character by character: the id of a concatenation is the
   * concatenation of the ids, so the kept characters stay in mention order.
   */
  lemma MentionAppend(a: string, b: string)
    ensures GetUserFromMention(a + b) == GetUserFromMention(a) + GetUserFromMention(b)
    ensures GetChannelFromMention(a + b) == GetChannelFromMention(a) + GetChannelFromMention(b)
  {
    StripAppend(a, b, USER_MENTION_CHARS);
    StripAppend(a, b, CHANNEL_MENTION_CHARS);
  }

  /** Both user-mention spellings give back the id they wrap. */
  lemma UserMentionRoundTrip(id: string)
    requires forall i :: 0 <= i < |id| ==> id[i] !in USER_MENTION_CHARS
    ensures GetUserFromMention("<@" + id + ">") == id
    ensures GetUserFromMention("<@!" + id + ">") == id
  {
    StripAppend("<@" + id, ">", USER_MENTION_CHARS);
    StripAppend("<@", id, USER_MENTION_CHARS);
    StripAppend("<@!" + id, ">", USER_MENTION_CHARS);
    StripAppend("<@!", id, USER_MENTION_CHARS);
    StripIdentity(id, USER_MENTION_CHARS);
  }

  /** A channel mention gives back the id it wraps. */
  lemma ChannelMentionRoundTrip(id: string)
    requires forall i :: 0 <= i < |id| ==> id[i] !in CHANNEL_MENTION_CHARS
    ensures GetChannelFromMention("<#" + id + ">") == id
  {
    StripAppend("<#" + id, ">", CHANNEL_MENTION_CHARS);
    StripAppend("<#", id, CHANNEL_MENTION_CHARS);
    StripIdentity(id, CHANNEL_MENTION_CHARS);
  }
}
