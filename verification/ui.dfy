/** The transient notification every view raises instead of propagating an
    error. Only its text and its variant are modelled. */
module Ui {

  datatype Toast = Toast(title: string, description: string, destructive: bool)
}
