/** The RUNNING/STOPPED state shared by the three loop owners
    (controller, sensor and pumper each declare the same two-member enum). */
module Lifecycle {

  datatype State = Running | Stopped
}
