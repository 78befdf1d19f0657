/** Reply selection in handleMessage (index.js:62-84) and handlePostback (index.js:86-90). */
module Replies {
  import opened JsText
  import opened Messenger

  const Greeting := "Hello! \U{1F44B} How can I help you today?"
  const CommandList := "Available commands: hi, help, echo <text>"
  const AttachmentThanks := "Thanks for the attachment!"
  const NotUnderstood := "I didn't understand that. Try typing 'hi'."
  const EchoPrefix := "echo "
  const PostbackPrefix := "Postback received: "

  /** The form of a message's text that commands are matched against: trimmed, then lower-cased. */
  function Normalize(text: string): (r: string)
    ensures |r| <= |text|
  {
    ToLower(Trim(text))
  }

  /** The branches of handleMessage's if-chain, one per reply it can choose. */
  datatype ReplyKind = Greet | ListCommands | EchoRest | EchoWhole | ThankAttachment | NotUnderstand

  /**
    * The branch a non-empty text takes: exact keywords first, then the "echo " prefix, then the
    * generic echo. Only the echo-prefix branch slices, and it is reached only by texts of at least
    * five characters.
    */
  function ClassifyText(text: string): (k: ReplyKind)
    ensures k in {Greet, ListCommands, EchoRest, EchoWhole}
    ensures k == EchoRest ==> |text| >= |EchoPrefix|
  {
    var txt := Normalize(text);
    if txt == "hi" || txt == "hello" then Greet
    else if txt == "help" then ListCommands
    else if StartsWith(txt, EchoPrefix) then EchoRest
    else EchoWhole
  }

  /**
    * The branch a message takes. A truthy text is decided by the text branches alone; only
    * without one do attachments count, and only without both is the fallback chosen.
    */
  function Classify(m: Message): (k: ReplyKind)
    ensures k in {Greet, ListCommands, EchoRest, EchoWhole} <==> Truthy(m.text)
    ensures k == ThankAttachment <==>
      !Truthy(m.text) && m.attachments.Some? && |m.attachments.value| > 0
    ensures k == NotUnderstand <==>
      !Truthy(m.text) && (m.attachments.None? || m.attachments.value == [])
  {
    if Truthy(m.text) then ClassifyText(m.text.value)
    else if m.attachments.Some? && |m.attachments.value| > 0 then ThankAttachment
    else NotUnderstand
  }

  /** The generic echo of the whole, untrimmed text. */
  function YouSaid(text: string): string {
    "You said: \"" + text + "\" (this bot echoes)"
  }

  /** The text of the reply handleMessage sends for `m`. */
  function ReplyText(m: Message): string {
    match Classify(m)
    case Greet => Greeting
    case ListCommands => CommandList
    case EchoRest => SliceFrom(m.text.value, |EchoPrefix|)
    case EchoWhole => YouSaid(m.text.value)
    case ThankAttachment => AttachmentThanks
    case NotUnderstand => NotUnderstood
  }

  /** The text of the reply handlePostback sends: an undefined payload prints as "undefined". */
  function PostbackText(p: Postback): (r: string)
    ensures StartsWith(r, PostbackPrefix)
    ensures r[|PostbackPrefix|..] == p.payload.GetOr("undefined")
  {
    PostbackPrefix + p.payload.GetOr("undefined")
  }

  /** Lemma: when the text is truthy, the attachments make no difference to the reply. */
  lemma TextDecidesAlone(text: Option<string>, a1: Option<seq<Attachment>>, a2: Option<seq<Attachment>>)
    requires Truthy(text)
    ensures ReplyText(Message(text, a1)) == ReplyText(Message(text, a2))
  {
  }

  /** Lemma: without a truthy text, the reply is the thanks exactly when there is an attachment, else the fallback. */
  lemma NoTextReply(text: Option<string>, attachments: Option<seq<Attachment>>)
    requires !Truthy(text)
    ensures attachments.Some? && |attachments.value| > 0 ==> ReplyText(Message(text, attachments)) == AttachmentThanks
    ensures attachments.None? || attachments.value == [] ==> ReplyText(Message(text, attachments)) == NotUnderstood
  {
  }

  /** Lemma: the echo branch replies with a suffix of the ORIGINAL text, five characters shorter. */
  lemma EchoReplyIsSuffix(text: string, attachments: Option<seq<Attachment>>)
    requires text != [] && ClassifyText(text) == EchoRest
    ensures var r := ReplyText(Message(Some(text), attachments));
      |r| == |text| - |EchoPrefix| && text == text[..|EchoPrefix|] + r
  {
  }

  /** Lemma: ToLower keeps whitespace, so a character that lower-cases to a non-whitespace one is not whitespace. */
  lemma LowerKeepsWhitespace(c: char)
    ensures IsWhitespace(c) <==> IsWhitespace(LowerChar(c))
  {
  }

  /** Lemma: a text without capital ASCII letters is its own lower-case form. */
  lemma AlreadyLowerCase(s: string)
    requires forall k :: 0 <= k < |s| ==> !('A' <= s[k] <= 'Z')
    ensures ToLower(s) == s
  {
  }

  /** Lemma: whitespace around a word does not change its normalized form. */
  lemma NormalizePadded(lead: string, word: string, trail: string)
    requires AllWhitespace(lead) && AllWhitespace(trail)
    requires word != [] && !IsWhitespace(ToLower(word)[0]) && !IsWhitespace(ToLower(word)[|word| - 1])
    ensures Normalize(lead + word + trail) == ToLower(word)
  {
    LowerKeepsWhitespace(word[0]);
    LowerKeepsWhitespace(word[|word| - 1]);
    TrimPadded(lead, word, trail);
  }

  /**
    * Lemma: "hi", "hello" and "help" are recognised in any letter case and with any surrounding
    * whitespace, and whatever the attachments.
    */
  lemma KeywordsDespitePaddingAndCase(lead: string, word: string, trail: string,
                                      attachments: Option<seq<Attachment>>)
    requires AllWhitespace(lead) && AllWhitespace(trail)
    requires ToLower(word) in {"hi", "hello", "help"}
    ensures ReplyText(Message(Some(lead + word + trail), attachments))
         == if ToLower(word) == "help" then CommandList else Greeting
  {
    NormalizePadded(lead, word, trail);
  }

  /**
    * Lemma: the echo command drops the first five characters of the text as received, not of the
    * trimmed text; whitespace before "echo " therefore shifts the cut into the command word.
    */
  lemma {:induction false} EchoDropsFiveOriginalChars(lead: string, word: string, rest: string, trail: string,
                                                      attachments: Option<seq<Attachment>>)
    requires AllWhitespace(lead) && AllWhitespace(trail)
    requires ToLower(word) == EchoPrefix
    requires rest != [] && !IsWhitespace(rest[|rest| - 1])
    ensures ReplyText(Message(Some(lead + word + rest + trail), attachments))
         == (lead + word)[|EchoPrefix|..] + rest + trail
  {
    var text := lead + word + rest + trail;
    var core := word + rest;
    assert ToLower(core)[..|EchoPrefix|] == ToLower(word);
    assert ToLower(core)[|core| - 1] == LowerChar(rest[|rest| - 1]);
    LowerKeepsWhitespace(rest[|rest| - 1]);
    assert text == lead + core + trail;
    NormalizePadded(lead, core, trail);
    assert |Normalize(text)| > 5;
    assert ClassifyText(text) == EchoRest;
    assert text[|EchoPrefix|..] == (lead + word)[|EchoPrefix|..] + rest + trail;
  }

  /**
    * Lemma: the five characters the echo command cuts are whitespace or letters of "echo ", all in
    * the Basic Multilingual Plane, so counting code points and counting UTF-16 code units cut at
    * the same place.
    */
  lemma EchoCutInBasicPlane(text: string)
    requires ClassifyText(text) == EchoRest
    ensures forall k :: 0 <= k < |EchoPrefix| ==> text[k] as int < 0x1_0000
  {
    var r, i := Trim(text), |text| - |TrimStart(text)|;
    TrimIsSlice(text);
    assert EchoPrefix <= ToLower(r);
    forall k | 0 <= k < |EchoPrefix|
      ensures text[k] as int < 0x1_0000
    {
      if k < i {
        assert IsWhitespace(text[..i][k]);
      } else {
        assert text[k] == r[k - i];
        assert LowerChar(r[k - i]) == EchoPrefix[k - i];
      }
    }
  }

  /** Lemma: "echo" with nothing after it but whitespace is no command: trimming removes the space, so it is echoed whole. */
  lemma BareEchoIsEchoedWhole(lead: string, word: string, trail: string, attachments: Option<seq<Attachment>>)
    requires AllWhitespace(lead) && AllWhitespace(trail)
    requires ToLower(word) == "echo"
    ensures ReplyText(Message(Some(lead + word + trail), attachments)) == YouSaid(lead + word + trail)
  {
    NormalizePadded(lead, word, trail);
  }

  /** Lemma: different postback payloads give different reply texts. */
  lemma PostbackTextInjective(p: Postback, q: Postback)
    requires PostbackText(p) == PostbackText(q)
    ensures p.payload.GetOr("undefined") == q.payload.GetOr("undefined")
  {
  }

  // The examples below take their text as a parameter fixed by their requires clause, so that the
  // verifier reasons about it through the general lemmas rather than by unfolding Trim on a literal.

  /** Lemma: a greeting surrounded by spaces and written with a capital letter is still a greeting. */
  lemma ExamplePaddedGreeting(text: string)
    requires text == "  Hi  "
    ensures ReplyText(Message(Some(text), None)) == Greeting
  {
    var lead, word, trail := text[..2], text[2..4], text[4..];
    assert text == lead + word + trail;
    assert ToLower(word) == "hi" by {
      assert ToLower(word)[0] == LowerChar('H') == 'h';
    }
    KeywordsDespitePaddingAndCase(lead, word, trail, None);
  }

  /** Lemma: the echo command keeps the casing of the words after it. */
  lemma ExampleEcho(text: string)
    requires text == "Echo HELLO world"
    ensures ReplyText(Message(Some(text), None)) == "HELLO world"
  {
    var word, rest := text[..5], text[5..];
    assert text == [] + word + rest + [];
    assert ToLower(word) == EchoPrefix by {
      assert ToLower(word)[0] == LowerChar('E') == 'e';
    }
    EchoDropsFiveOriginalChars([], word, rest, [], None);
  }

  /** Lemma: an indented echo command is cut five characters into the text as received. */
  lemma ExampleIndentedEcho(text: string)
    requires text == "  echo hi"
    ensures ReplyText(Message(Some(text), None)) == "o hi"
  {
    var lead, word, rest := text[..2], text[2..7], text[7..];
    assert text == lead + word + rest + [];
    assert ToLower(word) == EchoPrefix;
    EchoDropsFiveOriginalChars(lead, word, rest, [], None);
  }

  /** Lemma: unrecognised text is echoed whole. */
  lemma ExampleEchoedWhole(text: string)
    requires text == "xyzzy"
    ensures ReplyText(Message(Some(text), None)) == YouSaid("xyzzy")
  {
    assert text == [] + text + [];
    NormalizePadded([], text, []);
    var txt := Normalize(text);
    assert txt[0] == 'x';
    assert !(txt == "hi" || txt == "hello") && txt != "help" && !StartsWith(txt, EchoPrefix);
  }

  /** Lemma: a keyword followed by more words is no command. */
  lemma ExampleKeywordWithMoreWords(text: string)
    requires text == "Help me"
    ensures ReplyText(Message(Some(text), None)) == YouSaid("Help me")
  {
    assert text == [] + text + [];
    NormalizePadded([], text, []);
  }

  /** Lemma: an empty text with one attachment is thanked for; a postback's payload is quoted. */
  lemma ExampleAttachmentAndPostback()
    ensures ReplyText(Message(Some(""), Some([Attachment("image")]))) == AttachmentThanks
    ensures PostbackText(Postback(Some("BUY_NOW"))) == "Postback received: BUY_NOW"
  {
  }
}
