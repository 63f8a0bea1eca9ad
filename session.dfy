/** `st.session_state`: the per-session key-value store that survives the
    script's reruns, and the `store_value` callback every widget of the pages
    runs on change. */
module Session {
  import opened Errors

  /** What the pages keep under a key: a checkbox flag, a multiselect's list
      of column names, or some other string (the theme, say). */
  datatype Value = Flag(on: bool) | Names(names: seq<string>) | Text(text: string)

  /** Python truthiness, as the SEP page applies it to a spacecraft's flag. */
  predicate Truthy(v: Value) {
    match v
    case Flag(b) => b
    case Names(ns) => ns != []
    case Text(t) => t != []
  }

  /** The widget writes to `_key`; the callback copies it to the permanent `key`. */
  function WidgetKey(key: string): string {
    "_" + key
  }

  /** The session after `store_value(key)`: KeyError when the widget key is
      absent; otherwise `key` holds the widget's value and no other key changes. */
  function Stored(state: map<string, Value>, key: string): (r: Result<map<string, Value>>)
    ensures r.Ok? <==> WidgetKey(key) in state
    ensures r.Err? ==> r.error == KeyError([WidgetKey(key)])
    ensures r.Ok? ==> r.value.Keys == state.Keys + {key}
    ensures r.Ok? ==> r.value[key] == state[WidgetKey(key)]
    ensures r.Ok? ==> forall k :: k in state && k != key ==> r.value[k] == state[k]
  {
    if WidgetKey(key) in state then Ok(state[key := state[WidgetKey(key)]])
    else Err(KeyError([WidgetKey(key)]))
  }

  class SessionState {
    var entries: map<string, Value>

    constructor (initial: map<string, Value>)
      ensures entries == initial
    {
      entries := initial;
    }

    /** The `store_value` callback: copies the value under the widget key to
        the permanent key, in place. When the widget key is absent the lookup
        raises KeyError and the session is left as it was. */
    method StoreValue(key: string) returns (outcome: Result<()>)
      modifies this
      ensures outcome.Ok? <==> WidgetKey(key) in old(entries)
      ensures outcome.Err? ==> outcome.error == KeyError([WidgetKey(key)]) && entries == old(entries)
      ensures outcome.Ok? ==> Stored(old(entries), key) == Ok(entries)
    {
      var widget := WidgetKey(key);
      if widget !in entries {
        return Err(KeyError([widget]));
      }
      entries := entries[key := entries[widget]];
      return Ok(());
    }
  }
}
