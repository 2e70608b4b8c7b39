/** The toast notifications the pages and hooks raise. */
module Notices {
  /** A toast: its title, its description, and whether it uses the "destructive" variant. */
  datatype Toast = Toast(title: string, description: string, destructive: bool)

  function ErrorToast(title: string, description: string): Toast {
    Toast(title, description, true)
  }

  function InfoToast(title: string, description: string): Toast {
    Toast(title, description, false)
  }
}
