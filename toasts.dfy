/** Notifications shown to the user by the pages and dialogs. */
module Toasts {
  /** A toast: title, description and whether it uses the destructive style. */
  datatype Toast = Toast(title: string, description: string, destructive: bool)
}
