/** `prepare_subject`: the task title built from a message's subject, its flags and the account's prefix. */
module Subject {
  import opened Outcomes
  import opened Registry
  import opened Text

  const ForwardMarker: string := "Fwd:"
  const ReplyMarker: string := "Re:"
  const PriorityMarker: string := " !1 "
  const NeedsReplyTag: string := " #@needsreply "
  const MailWord: string := "#@mail"
  const MailTag: string := " #@mail "

  /** The subject with every "Fwd:" removed and the result stripped, then the same for "Re:". */
  function CleanSubject(subject: string): string {
    var s := Strip(RemoveAll(subject, ForwardMarker));
    Strip(RemoveAll(s, ReplyMarker))
  }

  /** The account prefix and a space, when the account sets one. */
  function Heading(prefix: Option<string>): string {
    if prefix.Some? then prefix.value + " " else ""
  }

  /** The tags appended after the subject: priority, needs-reply, then mail. */
  function Annotations(flags: set<Flag>): string {
    (if FlagFor(Important) in flags then PriorityMarker else "")
    + (if FlagFor(Important) in flags || FlagFor(Todo) in flags then NeedsReplyTag else "")
    + MailTag
  }

  /** The steps after cleaning: prefix, priority marker, needs-reply tag, mail tag. */
  function Decorate(s: string, flags: set<Flag>, prefix: Option<string>): string {
    var s := if prefix.Some? then prefix.value + " " + s else s;
    var s := if FlagFor(Important) in flags then s + PriorityMarker else s;
    var s := if FlagFor(Important) in flags || FlagFor(Todo) in flags then s + NeedsReplyTag else s;
    s + MailTag
  }

  /** `prepare_subject`: the task title for a message. */
  function PrepareSubject(subject: string, flags: set<Flag>, prefix: Option<string>): string {
    Decorate(CleanSubject(subject), flags, prefix)
  }

  /** Regrouping a concatenation of five strings. */
  lemma Regroup(h: string, s: string, p: string, n: string, m: string)
    ensures h + s + p + n + m == h + s + (p + n + m)
  {
  }

  /** The decorated title is the heading, the subject and the annotations, in that order. */
  lemma DecorateLayout(s: string, flags: set<Flag>, prefix: Option<string>)
    ensures Decorate(s, flags, prefix) == Heading(prefix) + s + Annotations(flags)
  {
    var h := Heading(prefix);
    var p := if FlagFor(Important) in flags then PriorityMarker else "";
    var n := if FlagFor(Important) in flags || FlagFor(Todo) in flags then NeedsReplyTag else "";
    var s1 := if prefix.Some? then prefix.value + " " + s else s;
    var s2 := if FlagFor(Important) in flags then s1 + PriorityMarker else s1;
    var s3 := if FlagFor(Important) in flags || FlagFor(Todo) in flags then s2 + NeedsReplyTag else s2;
    assert s1 == h + s;
    assert s2 == s1 + p;
    assert s3 == s2 + n;
    assert Decorate(s, flags, prefix) == s3 + MailTag;
    assert Annotations(flags) == p + n + MailTag;
    Regroup(h, s, p, n, MailTag);
  }

  /** The title is the heading, the cleaned subject and the annotations, in that order. */
  lemma SubjectLayout(subject: string, flags: set<Flag>, prefix: Option<string>)
    ensures PrepareSubject(subject, flags, prefix)
            == Heading(prefix) + CleanSubject(subject) + Annotations(flags)
  {
    DecorateLayout(CleanSubject(subject), flags, prefix);
  }

  /** The cleaned subject is no longer than the subject and has no whitespace at either end. */
  lemma CleanSubjectTrimmed(subject: string)
    ensures var r := CleanSubject(subject);
      |r| <= |subject| && (r == [] || (!IsSpace(r[0]) && !IsSpace(r[|r| - 1])))
  {
  }

  /** The annotations end with the mail tag. */
  lemma AnnotationsEndWithMailTag(flags: set<Flag>)
    ensures EndsWith(Annotations(flags), MailTag)
  {
    var p := if FlagFor(Important) in flags then PriorityMarker else "";
    var n := if EarnsPersonal(flags) then NeedsReplyTag else "";
    var a := p + n + MailTag;
    assert Annotations(flags) == a;
    assert a[|a| - |MailTag|..] == MailTag;
  }

  /** Every title starts with the heading and ends with the mail tag. */
  lemma TitleFrame(subject: string, flags: set<Flag>, prefix: Option<string>)
    ensures StartsWith(PrepareSubject(subject, flags, prefix), Heading(prefix))
    ensures EndsWith(PrepareSubject(subject, flags, prefix), MailTag)
  {
    SubjectLayout(subject, flags, prefix);
    var h := Heading(prefix);
    var c := CleanSubject(subject);
    var a := Annotations(flags);
    AnnotationsEndWithMailTag(flags);
    EndsWithAppend(h + c, a, MailTag);
    assert (h + c + a)[..|h|] == h;
  }

  /** The annotations start with the priority marker exactly for important messages, carry the
      needs-reply tag right after it exactly for important or todo messages, and end with the mail tag. */
  lemma AnnotationsSpec(flags: set<Flag>)
    ensures var a := Annotations(flags);
      && (StartsWith(a, PriorityMarker) <==> FlagFor(Important) in flags)
      && (StartsWith(a[if FlagFor(Important) in flags then |PriorityMarker| else 0..], NeedsReplyTag)
          <==> EarnsPersonal(flags))
      && EndsWith(a, MailTag)
      && ':' !in a
  {
    var a := Annotations(flags);
    var p := if FlagFor(Important) in flags then PriorityMarker else "";
    var n := if EarnsPersonal(flags) then NeedsReplyTag else "";
    assert a == p + n + MailTag;
    assert a[|p|..] == n + MailTag;
    if FlagFor(Important) !in flags {
      assert a[1] != PriorityMarker[1];
    }
    if !EarnsPersonal(flags) {
      assert |a[|p|..]| < |NeedsReplyTag|;
    }
    assert a[|a| - |MailTag|..] == MailTag;
    assert ':' !in p && ':' !in n && ':' !in MailTag;
  }

  /** Left-stripping leaves a tail that starts with a non-space character in place. */
  lemma {:induction false} LStripKeepsTail(x: string, t: string)
    requires t != [] && !IsSpace(t[0])
    ensures EndsWith(LStrip(x + t), t)
    decreases |x|
  {
    if x == [] {
      assert x + t == t;
    } else if IsSpace(x[0]) {
      assert (x + t)[1..] == x[1..] + t;
      LStripKeepsTail(x[1..], t);
    } else {
      assert LStrip(x + t) == x + t;
    }
  }

  /** The mail tag is its word "#@mail" between two spaces, and that word has no colon. */
  lemma MailTagWord()
    ensures MailTag == " " + MailWord + " "
    ensures Unpadded(MailWord) && ':' !in MailWord
  {
  }

  /** A string ending in a word and a space is that word's string followed by the space. */
  lemma DropTrailingSpace(l: string, w: string)
    requires EndsWith(l, w + " ")
    ensures l == l[..|l| - 1] + " "
    ensures EndsWith(l[..|l| - 1], w)
  {
    var t := w + " ";
    assert l[|l| - |t|..] == t;
    assert l[|l| - 1] == t[|t| - 1];
    var k := l[..|l| - 1];
    assert k[|k| - |w|..] == t[..|w|];
  }

  /** Left-stripping a string that ends in an unpadded word and a space leaves the word and the
      space at the end. */
  lemma LStripWordSpace(x: string, w: string) returns (k: string)
    requires Unpadded(w)
    ensures LStrip(x + (w + " ")) == k + " "
    ensures EndsWith(k, w)
  {
    var t := w + " ";
    assert t[0] == w[0];
    LStripKeepsTail(x, t);
    var l := LStrip(x + t);
    DropTrailingSpace(l, w);
    k := l[..|l| - 1];
  }

  /** Stripping a string that ends in an unpadded word and a space keeps the word at the end. */
  lemma StripKeepsWord(x: string, w: string)
    requires Unpadded(w)
    ensures EndsWith(Strip(x + w + " "), w)
  {
    assert x + w + " " == x + (w + " ");
    var k := LStripWordSpace(x, w);
    assert k[|k| - 1] == w[|w| - 1];
    RStripTrailingSpace(k);
  }

  /** Removing a pattern whose last character is not in the word keeps a trailing word. */
  lemma RemoveKeepsWord(x: string, pat: string, w: string)
    requires pat != [] && pat[|pat| - 1] !in w
    requires EndsWith(x, w)
    ensures EndsWith(RemoveAll(x, pat), w)
  {
    var n := |x| - |w|;
    assert x == x[..n] + w;
    RemoveAllAppend(x[..n], w, pat);
  }

  /** Stripping a string that ends in an unpadded word keeps it. */
  lemma StripKeepsWordEnd(x: string, w: string)
    requires Unpadded(w) && EndsWith(x, w)
    ensures EndsWith(Strip(x), w)
  {
    var n := |x| - |w|;
    assert x == x[..n] + w;
    LStripKeepsTail(x[..n], w);
    var l := LStrip(x);
    assert RStrip(l) == l;
  }

  /** Cleaning a string that ends in a colon-free tail ending in the mail tag keeps the "#@mail". */
  lemma CleanKeepsMailWord(x: string, a: string)
    requires ':' !in a && EndsWith(a, MailTag)
    ensures EndsWith(CleanSubject(x + a), MailWord)
  {
    MailTagWord();
    var w := MailWord;
    var m := |a| - |MailTag|;
    assert a == a[..m] + " " + w + " ";
    RemoveAllAppend(x, a, ForwardMarker);
    var r1 := RemoveAll(x + a, ForwardMarker);
    var front := RemoveAll(x, ForwardMarker) + a[..m] + " ";
    assert r1 == front + w + " ";
    StripKeepsWord(front, w);
    var s1 := Strip(r1);
    RemoveKeepsWord(s1, ReplyMarker, w);
    StripKeepsWordEnd(RemoveAll(s1, ReplyMarker), w);
  }

  /** Decorating a subject that ends in a word puts fresh annotations right after the word. */
  lemma DecorateAfterWord(c: string, w: string, flags: set<Flag>, prefix: Option<string>)
    requires EndsWith(c, w)
    ensures EndsWith(Decorate(c, flags, prefix), w + Annotations(flags))
  {
    DecorateLayout(c, flags, prefix);
    var a := Annotations(flags);
    var d := Heading(prefix) + c + a;
    assert d[|d| - |a| - |w|..] == c[|c| - |w|..] + a;
  }

  /** Not idempotent: titling a title keeps the old mail tag (without its trailing space) and
      appends a fresh set of annotations after it. */
  lemma ReapplyAppendsTagsAgain(subject: string, flags: set<Flag>, prefix: Option<string>)
    ensures var once := PrepareSubject(subject, flags, prefix);
      EndsWith(PrepareSubject(once, flags, prefix), MailWord + Annotations(flags))
  {
    var once := PrepareSubject(subject, flags, prefix);
    SubjectLayout(subject, flags, prefix);
    AnnotationsSpec(flags);
    CleanKeepsMailWord(Heading(prefix) + CleanSubject(subject), Annotations(flags));
    DecorateAfterWord(CleanSubject(once), MailWord, flags, prefix);
  }

  /** One cleaning stage removes a leading marker and the space after it. */
  lemma CleanStage(pat: string, t: string, c: char)
    requires pat != [] && c in pat && c !in t && c != ' '
    requires Unpadded(t)
    ensures Strip(RemoveAll(pat + " " + t, pat)) == t
  {
    assert pat + " " + t == pat + (" " + t);
    RemoveLeading(pat, " " + t, c);
    StripLeadingSpace(t);
  }

  /** A subject "Fwd: Re: t" is cleaned to t when t has no surrounding whitespace and no 'F' or 'R'. */
  lemma CleanForwardedReply(t: string)
    requires Unpadded(t)
    requires 'F' !in t && 'R' !in t
    ensures CleanSubject(ForwardMarker + " " + ReplyMarker + " " + t) == t
  {
    var s2 := ReplyMarker + " " + t;
    assert ForwardMarker + " " + ReplyMarker + " " + t == ForwardMarker + " " + s2;
    assert s2[0] == 'R' && s2[|s2| - 1] == t[|t| - 1];
    assert 'F' !in s2;
    CleanStage(ForwardMarker, s2, 'F');
    CleanStage(ReplyMarker, t, 'R');
  }

  /** The worked example: "Fwd: Re: Buy milk", flagged important, in an account with prefix "[Home]",
      becomes "[Home] Buy milk !1  #@needsreply  #@mail ". */
  lemma BuyMilkExample()
    ensures PrepareSubject(ForwardMarker + " " + ReplyMarker + " " + "Buy milk", {FlagFor(Important)}, Some("[Home]"))
            == "[Home]" + " " + "Buy milk" + PriorityMarker + NeedsReplyTag + MailTag
  {
    var t := "Buy milk";
    assert Unpadded(t) && 'F' !in t && 'R' !in t;
    CleanForwardedReply(t);
    var flags := {FlagFor(Important)};
    var p := Some("[Home]");
    assert Annotations(flags) == PriorityMarker + NeedsReplyTag + MailTag;
    DecorateLayout("Buy milk", flags, p);
    assert Heading(p) == "[Home]" + " ";
  }
}
