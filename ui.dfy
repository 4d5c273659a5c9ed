/**
 * The two UI services the code talks to, reduced to ghost logs of their effects: the Material
 * snack bar (every notification text opened) and the Angular router (every URL navigated to).
 */
module Ui {

  class SnackBar {
    ghost var shown: seq<string>

    constructor ()
      ensures shown == []
    {
      shown := [];
    }

    ghost method Open(message: string)
      modifies this
      ensures shown == old(shown) + [message]
    {
      shown := shown + [message];
    }
  }

  class Router {
    ghost var visited: seq<string>

    constructor ()
      ensures visited == []
    {
      visited := [];
    }

    /** `navigateByUrl(url)` and `navigate([url])` alike. */
    ghost method Navigate(url: string)
      modifies this
      ensures visited == old(visited) + [url]
    {
      visited := visited + [url];
    }
  }
}
