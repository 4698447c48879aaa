/** The mutable (pid, title) record the collectors build (package `support`). */
module Support {
  import opened Wrappers

  class CorpusObject {
    /** There is no pid setter, so the pid is fixed by the constructor. */
    const pid: Option<string>
    var title: Option<string>

    /** The no-argument constructor: both fields stay null. */
    constructor ()
      ensures GetFedoraPid() == None && GetTitle() == None
    {
      pid := None;
      title := None;
    }

    /** The pid constructor: the pid is stored and the title stays null. */
    constructor WithPid(fedoraPid: string)
      ensures GetFedoraPid() == Some(fedoraPid) && GetTitle() == None
    {
      pid := Some(fedoraPid);
      title := None;
    }

    /** The pid given at construction, or null. */
    function GetFedoraPid(): (p: Option<string>)
      ensures p == pid
    {
      pid
    }

    /** Replaces the title; `pid` is a constant, so no call can change it. */
    method SetTitle(t: Option<string>)
      modifies this
      ensures GetTitle() == t
    {
      title := t;
    }

    /** The title last set, or null. */
    function GetTitle(): (t: Option<string>)
      reads this
      ensures t == title
    {
      title
    }
  }
}
