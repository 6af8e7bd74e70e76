/**
 * The conversational memory of app/context.py: a deque bounded to the last
 * MaxContext messages, mirrored to a JSON file after every addition, cleared on
 * request and reloaded from that file at start-up.
 *
 * The module-level deque becomes the field `messages` of a `ContextMemory`
 * object. Two ghost fields follow what the deque stands for: `history`, every
 * message added or loaded since the last clear, and `saved`, the contents of
 * the JSON file as last written (None once the file is removed).
 */
module Context {
  import opened Wrappers

  /** MAX_CONTEXT, the `maxlen` of the deque. */
  const MaxContext: nat := 10

  /** One entry of the deque, `{"role": role, "text": text}`. */
  datatype Message = Message(role: string, text: string)

  /** What reading the JSON file gave: no file, a file that could not be read or parsed
      (the exception is caught and only logged), or the parsed list of entries. */
  datatype FileRead = Missing | Unreadable | Parsed(data: seq<Message>)

  /** The last MaxContext messages of a sequence (`s[-MAX_CONTEXT:]`), which is also
      what a deque with that bound holds after appending them one by one. */
  function Window(s: seq<Message>): (w: seq<Message>)
    ensures |w| == if |s| <= MaxContext then |s| else MaxContext
    ensures w == s[|s| - |w|..]
  {
    if |s| <= MaxContext then s else s[|s| - MaxContext..]
  }

  /** Any suffix of `s` that is at least a window long has the same window as `s`. */
  lemma WindowOfSuffix(s: seq<Message>, k: nat)
    requires k <= |s| && |s| - k >= |Window(s)|
    ensures Window(s[k..]) == Window(s)
  {
  }

  /** The deque forgets nothing that matters: appending to the bounded window gives the
      window of appending to the whole history. */
  lemma WindowThenAppend(history: seq<Message>, more: seq<Message>)
    ensures Window(Window(history) + more) == Window(history + more)
  {
    var k := |history| - |Window(history)|;
    assert (history + more)[k..] == Window(history) + more;
    WindowOfSuffix(history + more, k);
  }

  /** Whatever comes before a window-long tail does not reach the window. */
  lemma WindowOfTail(front: seq<Message>, tail: seq<Message>)
    requires |tail| >= MaxContext
    ensures Window(front + tail) == Window(tail)
  {
    assert (front + tail)[|front|..] == tail;
    WindowOfSuffix(front + tail, |front|);
  }

  /** `extend(data[-MAX_CONTEXT:])` leaves the same deque as `extend(data)` would. */
  lemma LoadingLastIsLoadingAll(messages: seq<Message>, data: seq<Message>)
    ensures Window(messages + Window(data)) == Window(messages + data)
  {
    if |data| > MaxContext {
      WindowOfTail(messages, Window(data));
      WindowOfTail(messages, data);
    }
  }

  /** One more loaded entry: the deque and the history both grow by `last[i]`. */
  lemma LoadStep(start: seq<Message>, past: seq<Message>, last: seq<Message>, i: nat)
    requires i < |last|
    ensures Window(Window(start + last[..i]) + [last[i]]) == Window(start + last[..i + 1])
    ensures (past + last[..i]) + [last[i]] == past + last[..i + 1]
  {
    assert start + last[..i + 1] == (start + last[..i]) + [last[i]];
    WindowThenAppend(start + last[..i], [last[i]]);
  }

  /** The state of app/context.py. */
  class ContextMemory {
    /** The deque `context_memory`, oldest message first. */
    var messages: seq<Message>
    /** Every message appended or loaded since the deque was last emptied. */
    ghost var history: seq<Message>
    /** The contents of the JSON file as last written, or None if there is no file. */
    ghost var saved: Option<seq<Message>>

    /** The deque holds exactly the last MaxContext messages of the history. */
    ghost predicate Valid()
      reads this
    {
      messages == Window(history)
    }

    /** The module at import time: an empty deque; the file is whatever an earlier run left. */
    constructor (ghost file: Option<seq<Message>>)
      ensures Valid()
      ensures messages == [] && history == [] && saved == file
    {
      messages := [];
      history := [];
      saved := file;
    }

    /** The deque's `append`: at capacity the oldest message is dropped first. */
    method Append(m: Message)
      requires Valid()
      modifies this
      ensures Valid()
      ensures history == old(history) + [m]
      ensures messages == Window(old(messages) + [m])
      ensures saved == old(saved)
    {
      WindowThenAppend(history, [m]);
      if |messages| == MaxContext {
        messages := messages[1..] + [m];
      } else {
        messages := messages + [m];
      }
      history := history + [m];
    }

    /** add_message: append, then save the deque to the file. */
    method AddMessage(role: string, text: string)
      requires Valid()
      modifies this
      ensures Valid()
      ensures history == old(history) + [Message(role, text)]
      ensures messages == Window(old(messages) + [Message(role, text)])
      ensures saved == Some(messages)
    {
      Append(Message(role, text));
      SaveContext();
    }

    /** save_context: the file now holds the deque's list. */
    method SaveContext()
      modifies this
      ensures messages == old(messages) && history == old(history)
      ensures saved == Some(messages)
    {
      saved := Some(messages);
    }

    /** get_context: a copy of the deque, oldest first. */
    method GetContext() returns (r: seq<Message>)
      requires Valid()
      ensures r == messages == Window(history)
      ensures |r| <= MaxContext
    {
      r := messages;
    }

    /** clear_context: empty the deque and remove the file if it exists. */
    method ClearContext()
      modifies this
      ensures Valid()
      ensures messages == [] && history == [] && saved == None
    {
      messages := [];
      history := [];
      saved := None;
    }

    /** load_context: extend the deque with the last MaxContext entries of the file; a missing
        or unreadable file leaves it unchanged. The file is not written. */
    method LoadContext(read: FileRead)
      requires Valid()
      modifies this
      ensures Valid()
      ensures saved == old(saved)
      ensures read.Parsed? ==> messages == Window(old(messages) + read.data)
      ensures read.Parsed? ==> history == old(history) + Window(read.data)
      ensures !read.Parsed? ==> messages == old(messages) && history == old(history)
    {
      if read.Parsed? {
        ghost var start, past := messages, history;
        var last := Window(read.data);
        var i := 0;
        while i < |last|
          invariant 0 <= i <= |last|
          invariant Valid()
          invariant saved == old(saved)
          invariant history == past + last[..i]
          invariant messages == Window(start + last[..i])
        {
          LoadStep(start, past, last, i);
          Append(last[i]);
          i := i + 1;
        }
        assert last[..i] == last;
        LoadingLastIsLoadingAll(start, read.data);
      }
    }
  }
}
