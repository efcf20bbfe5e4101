/** The look of a UI badge, which is how the pages report a classification. */
module Badges {

  /** The `variant` property of the badge component. */
  datatype Variant = Default | Secondary | Destructive | Outline
}
