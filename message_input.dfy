/** The message composer: a text field and an optional picked document,
    the rule that enables the send button, and the submit handler that
    sends the document if one is picked and the trimmed text otherwise. */
module MessageInput {
  import opened Types
  import opened MessageModel
  import opened ChatStore

  /** The characters `String.prototype.trim` removes: the ECMAScript white
      space (tab, vertical tab, form feed, space, no-break space, the byte
      order mark and the other space separators) and the line
      terminators. */
  predicate IsJsSpace(c: char) {
    var n := c as int;
    || n == 0x09 || n == 0x0B || n == 0x0C || n == 0x20 || n == 0xA0 || n == 0xFEFF
    || n == 0x1680 || (0x2000 <= n <= 0x200A) || n == 0x202F || n == 0x205F || n == 0x3000
    || n == 0x0A || n == 0x0D || n == 0x2028 || n == 0x2029
  }

  /** Drops the leading white space. */
  function TrimStart(s: string): (r: string)
    ensures |r| <= |s| && r == s[|s| - |r|..]
    ensures r == [] || !IsJsSpace(r[0])
    ensures forall i :: 0 <= i < |s| - |r| ==> IsJsSpace(s[i])
  {
    if s == [] || !IsJsSpace(s[0]) then s else TrimStart(s[1..])
  }

  /** Drops the trailing white space. */
  function TrimEnd(s: string): (r: string)
    ensures |r| <= |s| && r == s[..|r|]
    ensures r == [] || !IsJsSpace(r[|r| - 1])
    ensures forall i :: |r| <= i < |s| ==> IsJsSpace(s[i])
  {
    if s == [] || !IsJsSpace(s[|s| - 1]) then s else TrimEnd(s[..|s| - 1])
  }

  /** `text.trim()`. */
  function Trim(s: string): (r: string)
    ensures r == [] || (!IsJsSpace(r[0]) && !IsJsSpace(r[|r| - 1]))
  {
    TrimEnd(TrimStart(s))
  }

  /** The trimmed text is empty exactly when the text is white space
      only. */
  lemma TrimEmptyIff(s: string)
    ensures Trim(s) == [] <==> forall i :: 0 <= i < |s| ==> IsJsSpace(s[i])
  {
    var t := TrimStart(s);
  }

  /** The trimmed text is a piece of the text, and trimming it again
      changes nothing. */
  lemma TrimIsInfixAndIdempotent(s: string)
    ensures exists i, j :: 0 <= i <= j <= |s| && Trim(s) == s[i..j]
    ensures Trim(Trim(s)) == Trim(s)
  {
    var t := TrimStart(s);
    var k := |s| - |t|;
    var r := TrimEnd(t);
    assert r == s[k..k + |r|];
  }

  /** The send button is enabled, and a submit does anything, when there
      is text other than white space or a picked document. */
  predicate CanSubmit(text: string, documentFile: Option<File>) {
    Trim(text) != [] || documentFile.Some?
  }

  /** What one submit does: the document to send, the text to send, and
      which of the two fields it clears. */
  datatype Plan = Plan(document: Option<File>, text: Option<string>, clearDocument: bool, clearText: bool)

  /** The submit rule. The handler tests the document it captured at
      submit time after sending it, so a picked document always suppresses
      the text, which is then neither sent nor cleared. */
  function Dispatch(text: string, documentFile: Option<File>): (p: Plan)
    ensures !CanSubmit(text, documentFile) ==> p == Plan(None, None, false, false)
    ensures p.document == documentFile
    ensures p.clearDocument <==> documentFile.Some?
    ensures p.text.Some? <==> documentFile.None? && Trim(text) != []
    ensures p.text.Some? ==> p.text.value == Trim(text) && p.text.value != []
    ensures p.clearText <==> p.text.Some?
  {
    if !CanSubmit(text, documentFile) then Plan(None, None, false, false)
    else if documentFile.Some? then Plan(documentFile, None, true, false)
    else Plan(None, Some(Trim(text)), false, true)
  }

  /** A submit never sends both, and sends one exactly when the button is
      enabled. */
  lemma DispatchSendsAtMostOne(text: string, documentFile: Option<File>)
    ensures !(Dispatch(text, documentFile).document.Some? && Dispatch(text, documentFile).text.Some?)
    ensures CanSubmit(text, documentFile) <==>
      Dispatch(text, documentFile).document.Some? || Dispatch(text, documentFile).text.Some?
  {
  }

  /** White-space text alone sends nothing. */
  lemma BlankTextSendsNothing(text: string)
    requires forall i :: 0 <= i < |text| ==> IsJsSpace(text[i])
    ensures Dispatch(text, None) == Plan(None, None, false, false)
  {
    TrimEmptyIff(text);
  }

  class Composer {
    var text: string
    var documentFile: Option<File>

    constructor ()
      ensures text == "" && documentFile.None?
    {
      text := "";
      documentFile := None;
    }

    /** `handleSendMessage`: carries out `Dispatch` on the chat store. The
        store's send methods catch their own failures, so the text is
        cleared after a text send whatever its reply. */
    method HandleSendMessage(chat: ChatView, documentReply: Reply<Message>, textReply: Reply<Message>)
      modifies this, chat`messages, chat`requests, chat`isMessagesLoading
      ensures var p := Dispatch(old(text), old(documentFile));
        && text == (if p.clearText then "" else old(text))
        && documentFile == (if p.clearDocument then None else old(documentFile))
      ensures !CanSubmit(old(text), old(documentFile)) ==>
        chat.messages == old(chat.messages) && chat.requests == old(chat.requests)
        && chat.isMessagesLoading == old(chat.isMessagesLoading)
      ensures old(documentFile).Some? ==>
        var accepted := chat.selectedUser.Some? && old(documentFile).value.mimeType in ClientAllowedTypes;
        && chat.messages == old(chat.messages) + (if accepted then SentDocument(documentReply, old(documentFile).value.name) else [])
        && chat.requests == old(chat.requests) + (if accepted then [PostDocument(chat.selectedUser.value, old(documentFile).value)] else [])
        && chat.isMessagesLoading == (if accepted then false else old(chat.isMessagesLoading))
      ensures old(documentFile).None? && Trim(old(text)) != [] ==>
        && chat.messages == old(chat.messages) + (if chat.selectedUser.Some? && textReply.Success? then [textReply.value] else [])
        && chat.requests == old(chat.requests) + (if chat.selectedUser.Some? then [PostText(chat.selectedUser.value, Trim(old(text)))] else [])
        && chat.isMessagesLoading == old(chat.isMessagesLoading)
    {
      var trimmed := Trim(text);
      if trimmed == [] && documentFile.None? {
        return;
      }
      var picked := documentFile;
      if picked.Some? {
        SubmitDocument(chat, picked.value, documentReply);
      } else {
        SubmitText(chat, trimmed, textReply);
      }
    }

    /** The document branch of the submit: send the picked document, then
        clear it. */
    method SubmitDocument(chat: ChatView, file: File, reply: Reply<Message>)
      modifies this`documentFile, chat`messages, chat`requests, chat`isMessagesLoading
      ensures documentFile.None?
      ensures var accepted := chat.selectedUser.Some? && file.mimeType in ClientAllowedTypes;
        && chat.messages == old(chat.messages) + (if accepted then SentDocument(reply, file.name) else [])
        && chat.requests == old(chat.requests) + (if accepted then [PostDocument(chat.selectedUser.value, file)] else [])
        && chat.isMessagesLoading == (if accepted then false else old(chat.isMessagesLoading))
    {
      chat.SendDocument(file, reply);
      documentFile := None;
    }

    /** The text branch of the submit: send the trimmed text, then clear
        the field. */
    method SubmitText(chat: ChatView, trimmed: string, reply: Reply<Message>)
      modifies this`text, chat`messages, chat`requests
      ensures text == ""
      ensures chat.messages == old(chat.messages) + (if chat.selectedUser.Some? && reply.Success? then [reply.value] else [])
      ensures chat.requests == old(chat.requests) + (if chat.selectedUser.Some? then [PostText(chat.selectedUser.value, trimmed)] else [])
    {
      chat.SendMessage(trimmed, reply);
      text := "";
    }
  }
}
