/**
 * app/memory.py: the per-session transcript log. The `chat_history`
 * directory is a map from file path to the JSON list stored there; a path
 * that is not a key is a file that does not exist.
 */
module Memory {
  import opened Wrappers

  /** `HISTORY_DIR`. */
  const HistoryDir := "chat_history"

  /** POSIX `os.path.join(a, b)`: an absolute `b` replaces `a`; otherwise one '/' goes between them. */
  function PathJoin(a: string, b: string): (p: string)
    ensures |b| > 0 && b[0] == '/' ==> p == b
    ensures (|b| == 0 || b[0] != '/') ==>
              && |a| + |b| <= |p| <= |a| + |b| + 1
              && p[..|a|] == a && p[|p| - |b|..] == b
              && (|p| > |a| + |b| <==> |a| > 0 && a[|a| - 1] != '/')
              && (|p| > |a| + |b| ==> p[|a|] == '/')
  {
    if |b| > 0 && b[0] == '/' then b
    else if |a| == 0 || a[|a| - 1] == '/' then a + b
    else a + "/" + b
  }

  /** `get_history_path(session_id)`. */
  function HistoryPath(sessionId: string): (p: string)
    ensures |p| >= |sessionId| + 5 && p[|p| - |sessionId| - 5..] == sessionId + ".json"
  {
    PathJoin(HistoryDir, sessionId + ".json")
  }

  /** A session id that does not start with '/' gets its file inside `chat_history`. */
  lemma HistoryPathInDir(sessionId: string)
    requires |sessionId| == 0 || sessionId[0] != '/'
    ensures HistoryPath(sessionId) == HistoryDir + "/" + sessionId + ".json"
  {
  }

  /**
   * Distinct session ids have distinct history files, also an absolute id,
   * whose file lands outside `chat_history`.
   */
  lemma HistoryPathInjective(s1: string, s2: string)
    requires HistoryPath(s1) == HistoryPath(s2)
    ensures s1 == s2
  {
    var p := HistoryPath(s1);
    var abs1 := |s1| > 0 && s1[0] == '/';
    var abs2 := |s2| > 0 && s2[0] == '/';
    if !abs1 {
      HistoryPathInDir(s1);
      assert p[0] == 'c';
    }
    if !abs2 {
      HistoryPathInDir(s2);
      assert p[0] == 'c';
    }
    if abs1 || abs2 {
      assert p[0] == '/';
      assert s1 == p[..|p| - 5] == s2;
    } else {
      var d := |HistoryDir| + 1;
      assert s1 == p[d..|p| - 5] == s2;
    }
  }

  /** Position of the last '/' in `p`, or -1 when there is none. */
  function LastSlash(p: string): (i: int)
    ensures -1 <= i < |p|
    ensures i >= 0 ==> p[i] == '/'
    ensures forall j :: i < j < |p| ==> p[j] != '/'
    decreases |p|
  {
    if p == [] then -1
    else if p[|p| - 1] == '/' then |p| - 1
    else LastSlash(p[..|p| - 1])
  }

  /**
   * The directory a file path is opened in: the text before the last '/'.
   * "" stands for the working directory (a path with no '/') or the root (a
   * path whose only '/' leads it), both of which exist.
   */
  function Dir(p: string): string {
    var i := LastSlash(p);
    if i < 0 then "" else p[..i]
  }

  predicate NoSlash(s: string) {
    forall j :: 0 <= j < |s| ==> s[j] != '/'
  }

  /**
   * A session's file lies directly in `chat_history` exactly when the session
   * id holds no '/'; an id such as "a/b" names a file in a sub-directory.
   */
  lemma HistoryFileInHistoryDir(sessionId: string)
    ensures Dir(HistoryPath(sessionId)) == HistoryDir <==> NoSlash(sessionId)
  {
    var p := HistoryPath(sessionId);
    var abs := |sessionId| > 0 && sessionId[0] == '/';
    if !abs {
      HistoryPathInDir(sessionId);
      var d := |HistoryDir|;
      assert p[d] == '/';
      if NoSlash(sessionId) {
        forall j | d < j < |p| ensures p[j] != '/' {
          if j - d - 1 < |sessionId| {
            assert p[j] == sessionId[j - d - 1];
          } else {
            assert p[j] == ".json"[j - d - 1 - |sessionId|];
          }
        }
        assert LastSlash(p) == d;
      } else {
        var k :| 0 <= k < |sessionId| && sessionId[k] == '/';
        assert p[d + 1 + k] == '/';
        assert LastSlash(p) > d;
        assert |Dir(p)| > d;
      }
    } else {
      assert p == sessionId + ".json";
      assert p[0] == '/';
      assert Dir(p) == [] || Dir(p)[0] == '/';
      assert !NoSlash(sessionId);
    }
  }

  /** One element of a history file's JSON list. */
  datatype Entry = Entry(timestamp: string, user: string, bot: string, emotion: Option<string>, suicideFlag: bool)

  /**
   * The transcript files, which `save_message` rewrites in place, and the
   * directories that exist, which decide whether a file can be opened for
   * writing.
   */
  class HistoryStore {
    var dirs: set<string>
    var files: map<string, seq<Entry>>

    /** `chat_history` exists, as the module makes sure when it is imported. */
    ghost predicate Valid()
      reads this
    {
      HistoryDir in dirs
    }

    /** A file can be created at `path` when its directory exists. */
    predicate Writable(path: string)
      reads this
    {
      Dir(path) == "" || Dir(path) in dirs
    }

    /**
     * `os.makedirs(HISTORY_DIR, exist_ok=True)` at import, over the given
     * existing directories and no history files.
     */
    constructor (existing: set<string>)
      ensures Valid()
      ensures dirs == existing + {HistoryDir} && files == map[]
    {
      dirs := existing + {HistoryDir};
      files := map[];
    }

    /** `load_history(session_id)`: the stored list, or `[]` when the session has no file. */
    function LoadHistory(sessionId: string): (history: seq<Entry>)
      reads this
      ensures HistoryPath(sessionId) !in files ==> history == []
      ensures HistoryPath(sessionId) in files ==> history == files[HistoryPath(sessionId)]
    {
      var path := HistoryPath(sessionId);
      if path in files then files[path] else []
    }

    /**
     * `save_message(session_id, user_message, bot_reply, emotion, suicide_flag)`
     * with the clock's reading as `timestamp`. Opening the file for writing
     * raises (`saved` false, nothing stored) when its directory does not
     * exist; an id without '/' always has its file in `chat_history`.
     * Otherwise the session's list gains one entry at the end, its earlier
     * entries stay in order, and no other session's history changes.
     */
    method SaveMessage(sessionId: string, userMessage: string, botReply: string, timestamp: string,
                       emotion: Option<string> := None, suicideFlag: bool := false)
      returns (saved: bool)
      requires Valid()
      modifies this
      ensures Valid() && dirs == old(dirs)
      ensures saved <==> Writable(HistoryPath(sessionId))
      ensures NoSlash(sessionId) ==> saved
      ensures !saved ==> files == old(files)
      ensures saved ==> files == old(files)[HistoryPath(sessionId) := old(LoadHistory(sessionId)) + [Entry(timestamp, userMessage, botReply, emotion, suicideFlag)]]
      ensures saved ==> LoadHistory(sessionId) == old(LoadHistory(sessionId)) + [Entry(timestamp, userMessage, botReply, emotion, suicideFlag)]
      ensures forall other :: other != sessionId ==> LoadHistory(other) == old(LoadHistory(other))
    {
      var entry := Entry(timestamp, userMessage, botReply, emotion, suicideFlag);
      var path := HistoryPath(sessionId);
      var history: seq<Entry> := [];
      if path in files {
        history := files[path];
      }
      history := history + [entry];
      HistoryFileInHistoryDir(sessionId);
      if !Writable(path) {
        return false;
      }
      files := files[path := history];
      saved := true;
      forall other | other != sessionId
        ensures LoadHistory(other) == old(LoadHistory(other))
      {
        if HistoryPath(other) == path {
          HistoryPathInjective(other, sessionId);
        }
      }
    }
  }
}
