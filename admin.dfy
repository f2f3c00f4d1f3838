/** AdminController.ReplyMessageOnPost: an administrator's reply to a contact message,
    a guarded update of one row of the messages table. */
module Admin {
  import opened Platform

  /** A contact message. Only ID, AdminResponse and DateResponded are used by the
      core; the sender, body and sent date stand for the rest of the record. */
  datatype Message = Message(
    id: int,
    sender: string,
    body: string,
    dateSent: DateTime,
    adminResponse: Option<string>,
    dateResponded: Option<DateTime>)

  /** The message after a reply given at `now`. */
  function Replied(m: Message, response: string, now: DateTime): (r: Message)
    ensures r.adminResponse == Some(response) && r.dateResponded == Some(now)
    ensures r.(adminResponse := m.adminResponse, dateResponded := m.dateResponded) == m
  {
    m.(dateResponded := Some(now), adminResponse := Some(response))
  }

  /** Nothing stops a second reply: it replaces the first one and its date. */
  lemma LaterReplyOverwrites(m: Message, first: string, firstAt: DateTime, second: string, secondAt: DateTime)
    ensures Replied(Replied(m, first, firstAt), second, secondAt) == Replied(m, second, secondAt)
  {
  }

  /** The controller over the messages table (_context.Messages), keyed by id. */
  class AdminController {
    var messages: map<int, Message>

    /** Every row is stored under its own id. */
    ghost predicate Valid()
      reads this
    {
      forall id :: id in messages ==> messages[id].id == id
    }

    constructor (messages: map<int, Message>)
      requires forall id :: id in messages ==> messages[id].id == id
      ensures Valid() && this.messages == messages
    {
      this.messages := messages;
    }

    /** ReplyMessageOnPost: a missing id or message gives NotFound, a blank response
        shows the message again, and otherwise that one message gets the response and
        the reply date; no other message changes. */
    method ReplyMessageOnPost(id: Option<int>, response: Option<string>, now: DateTime) returns (result: ActionResult)
      requires Valid()
      modifies this
      ensures Valid()
      ensures id.None? || id.value !in old(messages) ==> result == NotFound && messages == old(messages)
      ensures id.Some? && id.value in old(messages) && IsNullOrWhiteSpace(response) ==>
                result == ViewPage && messages == old(messages)
      ensures id.Some? && id.value in old(messages) && !IsNullOrWhiteSpace(response) ==>
                && result == RedirectToAction("ViewMessages")
                && messages.Keys == old(messages).Keys
                && messages[id.value].adminResponse == response
                && messages[id.value].dateResponded == Some(now)
                && messages[id.value] == Replied(old(messages)[id.value], response.value, now)
      ensures forall k :: k in old(messages) && (id.None? || k != id.value) ==>
                k in messages && messages[k] == old(messages)[k]
    {
      if id.None? {
        return NotFound;
      }
      if id.value !in messages {
        return NotFound;
      }
      var message := messages[id.value];
      assert message.id == id.value;
      if IsNullOrWhiteSpace(response) {
        return ViewPage;
      }
      message := message.(dateResponded := Some(now));
      message := message.(adminResponse := response);
      messages := messages[message.id := message];
      return RedirectToAction("ViewMessages");
    }
  }
}
