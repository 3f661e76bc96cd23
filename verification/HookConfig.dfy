/** The hooks bossd keeps in a worktree's settings, beside whatever else is there. */
module HookConfig {
  import opened Wrappers
  import opened Text
  import opened HookLists

  const FINALIZE_MATCHER := "bossd-finalize"
  const RUN_PREFIX := "bossd-agent-run-"
  const MAX_TURN_ENDED: nat := 8

  const HOOKS := "/hooks/"
  const QUESTION := "question/"
  const PROMPT_SUBMITTED := "prompt-submitted/"
  const TURN_ENDED := "turn-ended/"
  const RUN_COMPLETE := "agent-run-complete/"
  const FINALIZE := "finalize/"

  /** One element of a hook array: a group, with an empty matcher standing for none,
      its inner commands and whatever else it holds; or something that is no group. */
  datatype Entry = Group(matcher: string, commands: seq<string>, rest: int) | NoGroup(rest: int)

  predicate HasMatcher(e: Entry, matcher: string) {
    e.Group? && e.matcher == matcher
  }

  predicate CommandContains(e: Entry, sub: string) {
    e.Group? && exists i | 0 <= i < |e.commands| :: Contains(e.commands[i], sub)
  }

  predicate IsRun(e: Entry) {
    e.Group? && RUN_PREFIX <= e.matcher
  }

  function WithMatcher(matcher: string): Entry -> bool {
    e => HasMatcher(e, matcher)
  }

  /** Entries that post to a URL starting with this path below `/hooks/`. */
  function Posting(path: string): Entry -> bool {
    e => CommandContains(e, HOOKS + path)
  }

  // ---- the entries bossd writes

  function Decimal(n: nat): string {
    if n < 10 then [('0' as int + n) as char] else Decimal(n / 10) + [('0' as int + n % 10) as char]
  }

  function Host(port: nat): string {
    "http://127.0.0.1:" + Decimal(port)
  }

  function Bearer(token: string): string {
    "-H \"Authorization: Bearer " + token + "\" "
  }

  const JSON_BODY := "-H \"Content-Type: application/json\" " + "--data-binary @- "
  const QUIETLY := " >/dev/null 2>&1 || true"

  function Posts(head: string, port: nat, url: string, tail: string, matcher: string): Entry {
    Group(matcher, [head + Host(port) + url + tail], 0)
  }

  function StopEntry(matcher: string, url: string, token: string, port: nat): Entry {
    Posts("curl -sf --max-time 5 -X POST " + Bearer(token), port, url, "", matcher)
  }

  function NotificationEntry(url: string, token: string, port: nat): Entry {
    Posts("curl -sf --max-time 5 -X POST " + Bearer(token) + JSON_BODY, port, url, "", "")
  }

  function TurnEndedEntry(url: string, token: string, port: nat): Entry {
    Posts("curl -s --max-time 2 -X POST " + Bearer(token) + JSON_BODY, port, url, QUIETLY, "")
  }

  function PromptEntry(url: string, token: string, port: nat): Entry {
    Posts("curl -s --max-time 2 -X POST " + (if token == "" then "" else Bearer(token)) + JSON_BODY, port, url,
        QUIETLY, "")
  }

  function HookMatcher(agent: string): string {
    if agent == "" then FINALIZE_MATCHER else RUN_PREFIX + agent
  }

  function HookURL(session: string, agent: string): string {
    HOOKS + if agent == "" then FINALIZE + session else RUN_COMPLETE + agent
  }

  // ---- the arrays

  /** The three arrays bossd edits; an absent one reads as empty. */
  datatype Hooks = Hooks(stop: seq<Entry>, notification: seq<Entry>, prompt: seq<Entry>)

  predicate TokenSafe(token: string) {
    forall i | 0 <= i < |token| ::
      'A' <= token[i] <= 'Z' || 'a' <= token[i] <= 'z' || '0' <= token[i] <= '9' || token[i] in "._~+/=-"
  }

  function Upserted(h: Hooks, session: string, agent: string, token: string, port: nat): Hooks {
    var matcher := HookMatcher(agent);
    var entry := StopEntry(matcher, HookURL(session, agent), token, port);
    if agent == "" then h.(stop := Upsert(h.stop, WithMatcher(matcher), entry))
    else
      var pruned := Keep(h.notification, Not(Posting(QUESTION)));
      h.(stop := Upsert(Keep(h.stop, Not(IsRun)), WithMatcher(matcher), entry),
         notification := Upsert(pruned, Posting(QUESTION + agent),
             NotificationEntry(HOOKS + QUESTION + agent, token, port)))
  }

  function Submitted(h: Hooks, agent: string, port: nat, token: string): Hooks {
    var prompt := Keep(h.prompt, Not(Posting(PROMPT_SUBMITTED)))
        + [PromptEntry(HOOKS + PROMPT_SUBMITTED + agent, token, port)];
    var stops := Keep(h.stop, Not(Posting(TURN_ENDED + agent)))
        + [TurnEndedEntry(HOOKS + TURN_ENDED + agent, token, port)];
    if token == "" then h.(prompt := prompt)
    else h.(prompt := prompt, stop := Cap(stops, Posting(TURN_ENDED), MAX_TURN_ENDED))
  }

  function Removed(h: Hooks, agent: string): Hooks {
    Hooks(Keep(h.stop, Not(WithMatcher(RUN_PREFIX + agent))),
          Keep(h.notification, Not(Posting(QUESTION + agent))),
          Keep(h.prompt, Not(Posting(PROMPT_SUBMITTED + agent))))
  }

  /** The settings file of one worktree. */
  class Settings {
    var hooks: Hooks

    constructor (hooks: Hooks)
      ensures this.hooks == hooks
    {
      this.hooks := hooks;
    }

    method WriteHookConfig(session: string, agent: string, token: string, port: int) returns (ok: bool)
      modifies this
      ensures ok <==> session != "" && token != "" && port > 0
      ensures hooks == if ok then Upserted(old(hooks), session, agent, token, port) else old(hooks)
    {
      if session == "" || token == "" || port <= 0 {
        return false;
      }
      var stops := hooks.stop;
      if agent != "" {
        stops := Prune(stops, IsRun);
      }
      var matcher := HookMatcher(agent);
      stops := UpsertInto(stops, WithMatcher(matcher), StopEntry(matcher, HookURL(session, agent), token, port));
      hooks := hooks.(stop := stops);
      if agent != "" {
        var notifs := Prune(hooks.notification, Posting(QUESTION));
        notifs := UpsertInto(notifs, Posting(QUESTION + agent),
            NotificationEntry(HOOKS + QUESTION + agent, token, port));
        hooks := hooks.(notification := notifs);
      }
      return true;
    }

    method WritePromptSubmitHookConfig(agent: string, port: int, token: string) returns (ok: bool)
      modifies this
      ensures ok <==> agent != "" && port > 0 && TokenSafe(token)
      ensures hooks == if ok then Submitted(old(hooks), agent, port, token) else old(hooks)
    {
      if agent == "" || port <= 0 || !TokenSafe(token) {
        return false;
      }
      var submits := Prune(hooks.prompt, Posting(PROMPT_SUBMITTED));
      hooks := hooks.(prompt := submits + [PromptEntry(HOOKS + PROMPT_SUBMITTED + agent, token, port)]);
      if token != "" {
        var stops := Prune(hooks.stop, Posting(TURN_ENDED + agent));
        stops := stops + [TurnEndedEntry(HOOKS + TURN_ENDED + agent, token, port)];
        stops := CapAt(stops, Posting(TURN_ENDED), MAX_TURN_ENDED);
        hooks := hooks.(stop := stops);
      }
      return true;
    }

    /** `rewritten` only if some array lost an entry. */
    method RemoveRunHookConfig(agent: string) returns (ok: bool, rewritten: bool)
      modifies this
      ensures ok <==> agent != ""
      ensures hooks == if ok then Removed(old(hooks), agent) else old(hooks)
      ensures rewritten <==> hooks != old(hooks)
    {
      if agent == "" {
        return false, false;
      }
      var stop := Prune(hooks.stop, WithMatcher(RUN_PREFIX + agent));
      var notification := Prune(hooks.notification, Posting(QUESTION + agent));
      var prompt := Prune(hooks.prompt, Posting(PROMPT_SUBMITTED + agent));
      KeepLength(hooks.stop, Not(WithMatcher(RUN_PREFIX + agent)));
      KeepLength(hooks.notification, Not(Posting(QUESTION + agent)));
      KeepLength(hooks.prompt, Not(Posting(PROMPT_SUBMITTED + agent)));
      rewritten := |stop| != |hooks.stop| || |notification| != |hooks.notification| || |prompt| != |hooks.prompt|;
      if rewritten {
        hooks := Hooks(stop, notification, prompt);
      }
      ok := true;
    }
  }
}
